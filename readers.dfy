/**
 * The row cursor returned to callers (OpenWebby.Data/Common/DataReader.cs): it wraps
 * the driver's reader and, when it was produced inside a shared transaction, counts
 * that step on Close.
 */
module Readers {
  import opened Transactions

  /** The driver's `DbDataReader`; only whether it has been closed is modelled. */
  class NativeReader {
    var isClosed: bool

    constructor ()
      ensures !isClosed
    {
      isClosed := false;
    }

    method Close()
      modifies this
      ensures isClosed
    {
      isClosed := true;
    }
  }

  class DataReader {
    const reader: NativeReader
    const transaction: Transaction?

    constructor (reader: NativeReader, transaction: Transaction?)
      ensures this.reader == reader && this.transaction == transaction
    {
      this.reader := reader;
      this.transaction := transaction;
    }

    /** A wrapped transaction is one the command engine set up: consistent and with its attributes stored. */
    ghost predicate Valid()
      reads this, if transaction == null then {} else {transaction}
    {
      transaction != null ==> transaction.Valid() && |transaction.attributes| > 0
    }

    /** Everything Close may touch besides the wrapped reader. */
    ghost function StepFootprint(): set<object>
      reads this
    {
      if transaction == null then {} else {transaction, transaction.connection, transaction.pool}
    }

    /**
     * Closes the wrapped reader, then records the deferred step on the transaction.
     * Without a transaction (the standalone path) nothing else happens: the
     * connection the reader was read from is not closed.
     */
    method Close()
      requires Valid()
      modifies reader, StepFootprint()
      ensures reader.isClosed
      ensures transaction != null ==> transaction.Valid() && transaction.Stepped()
      ensures transaction != null && old(transaction.pool.Valid()) ==> transaction.pool.Valid()
    {
      reader.Close();
      if transaction != null {
        transaction.Commit();
      }
    }
  }
}
