/**
 * The connection shim, the shared `Transaction` and the process-wide `TransactionPool`
 * (OpenWebby.Data/Common/Connection.cs, Transaction.cs, TransactionPool.cs). A
 * transaction removes itself from the pool and the pool holds transactions, so the
 * three classes live in one module. The pool is a single object that every
 * transaction and command refers to, standing for the static `Instances` list.
 */
module Transactions {
  import opened Wrappers
  import opened Attributes
  import opened PoolList
  import opened StepCounting

  datatype ConnectionState = Closed | Open

  /** A native `IDbTransaction`: the serial number the connection gave it and its isolation level. */
  datatype NativeHandle = NativeHandle(serial: nat, isolation: IsolationLevel)

  /**
   * The connection wrapper: `Open` and `Close` act only when the state differs, and
   * `BeginTransaction` asks the driver for a new native handle. `begun` counts the
   * native transactions started on this connection.
   */
  class Connection {
    var state: ConnectionState
    var begun: nat

    constructor ()
      ensures state == Closed && begun == 0
    {
      state := Closed;
      begun := 0;
    }

    method Open()
      modifies this
      ensures state == ConnectionState.Open && begun == old(begun)
    {
      if state != ConnectionState.Open {
        state := ConnectionState.Open;
      }
    }

    method Close()
      modifies this
      ensures state == Closed && begun == old(begun)
    {
      if state != Closed {
        state := Closed;
      }
    }

    method BeginTransaction(isolation: IsolationLevel) returns (h: NativeHandle)
      modifies this
      ensures h == NativeHandle(old(begun), isolation)
      ensures begun == old(begun) + 1 && state == old(state)
    {
      h := NativeHandle(begun, isolation);
      begun := begun + 1;
    }
  }

  /**
   * One shared transaction. `runningStep` counts completed steps, `isRuning` (the
   * source's spelling) records that `Begin` ran, `attributes` is the attribute array
   * of the first caller (empty until the command stores it), `currentTransaction` is
   * the native handle (None for null). `commits` and `rollbacks` count the calls made
   * on the native handle's Commit and Rollback.
   */
  class Transaction {
    const connection: Connection
    const pool: TransactionPool
    var runningStep: int
    var isRuning: bool
    var attributes: seq<TransactionSupport>
    var currentTransaction: Option<NativeHandle>
    var commits: nat
    var rollbacks: nat

    /** Begin is the only writer of the flag and the handle, and it sets both. */
    ghost predicate Valid()
      reads this
    {
      isRuning <==> currentTransaction.Some?
    }

    constructor (connection: Connection, pool: TransactionPool)
      ensures this.connection == connection && this.pool == pool
      ensures runningStep == 0 && !isRuning && currentTransaction == None
      ensures attributes == [] && commits == 0 && rollbacks == 0
      ensures Valid()
    {
      this.connection := connection;
      this.pool := pool;
      runningStep := 0;
      isRuning := false;
      attributes := [];
      currentTransaction := None;
      commits := 0;
      rollbacks := 0;
    }

    /** Starts the native transaction, opening the connection first when it is not open. */
    method Begin(isolation: IsolationLevel) returns (h: NativeHandle)
      modifies this, connection
      ensures isRuning && currentTransaction == Some(h)
      ensures h == NativeHandle(old(connection.begun), isolation)
      ensures connection.state == Open && connection.begun == old(connection.begun) + 1
      ensures runningStep == old(runningStep) && attributes == old(attributes)
      ensures commits == old(commits) && rollbacks == old(rollbacks)
      ensures Valid()
    {
      isRuning := true;
      if connection.state != Open {
        connection.Open();
      }
      h := connection.BeginTransaction(isolation);
      currentTransaction := Some(h);
    }

    /**
     * What one call of Commit does: the step counter goes up by one; when the commit
     * guard holds for the new count, the native transaction is committed once, the
     * connection ends closed and the pool loses the first entry under the declared key;
     * otherwise nothing else changes.
     */
    twostate predicate Stepped()
      reads this, connection, pool
    {
      && |attributes| > 0
      && runningStep == old(runningStep) + 1
      && attributes == old(attributes) && isRuning == old(isRuning)
      && currentTransaction == old(currentTransaction)
      && rollbacks == old(rollbacks) && connection.begun == old(connection.begun)
      && if CommitFires(attributes[0].tasks, runningStep, currentTransaction.Some?) then
           && commits == old(commits) + 1
           && connection.state == Closed
           && pool.instances == RemoveKey(old(pool.instances), attributes[0].key)
         else
           && commits == old(commits)
           && connection.state == old(connection.state)
           && pool.instances == old(pool.instances)
    }

    /**
     * What Rollback does: one native rollback, the connection ends closed and the pool
     * loses the first entry under the declared key; the step counter is untouched.
     */
    twostate predicate RolledBack()
      reads this, connection, pool
    {
      && |attributes| > 0
      && rollbacks == old(rollbacks) + 1
      && connection.state == Closed
      && pool.instances == RemoveKey(old(pool.instances), attributes[0].key)
      && runningStep == old(runningStep) && commits == old(commits)
      && attributes == old(attributes) && isRuning == old(isRuning)
      && currentTransaction == old(currentTransaction)
      && connection.begun == old(connection.begun)
    }

    /**
     * A change to this transaction's counters and connection alone keeps the pool valid:
     * every other pooled transaction is untouched and this one stays consistent.
     */
    twostate lemma OwnChangeKeepsPoolValid()
      requires Valid() == old(Valid()) && attributes == old(attributes)
      requires pool.instances == old(pool.instances)
      requires forall e | e in old(pool.instances) && e.value != this :: unchanged(e.value)
      ensures old(pool.Valid()) ==> pool.Valid()
    {
    }

    method Commit()
      requires Valid() && |attributes| > 0
      modifies this, connection, pool
      ensures Valid() && Stepped()
      ensures old(pool.Valid()) ==> pool.Valid()
    {
      runningStep := runningStep + 1;
      if attributes[0].tasks > 0 && runningStep != 0 && attributes[0].tasks == runningStep && currentTransaction != None {
        commits := commits + 1;
        if connection.state != Closed {
          connection.Close();
        }
        OwnChangeKeepsPoolValid();
        Dispose();
      } else {
        OwnChangeKeepsPoolValid();
      }
    }

    /** Needs the native handle: the source dereferences it unconditionally. */
    method Rollback()
      requires currentTransaction.Some? && |attributes| > 0
      modifies this, connection, pool
      ensures RolledBack()
      ensures old(Valid()) ==> Valid()
      ensures old(pool.Valid()) ==> pool.Valid()
    {
      rollbacks := rollbacks + 1;
      if connection.state != Closed {
        connection.Close();
      }
      OwnChangeKeepsPoolValid();
      Dispose();
    }

    /** Removes the pool entry under the first attribute's key. */
    method Dispose()
      requires |attributes| > 0
      modifies pool
      ensures pool.instances == RemoveKey(old(pool.instances), attributes[0].key)
      ensures old(pool.Valid()) ==> pool.Valid()
    {
      pool.Remove(attributes[0].key);
    }
  }

  /** The process-wide list of key/transaction pairs. */
  class TransactionPool {
    var instances: seq<Entry<Transaction>>

    constructor ()
      ensures instances == []
    {
      instances := [];
    }

    /**
     * The invariant sequential use keeps: keys are distinct, and every pooled
     * transaction refers to this pool, is consistent, and is keyed by its own
     * first attribute's key.
     */
    ghost predicate Valid()
      reads this, Transactions()
    {
      && DistinctKeys(instances)
      && forall e | e in instances ::
           && e.value.pool == this
           && e.value.Valid()
           && |e.value.attributes| > 0
           && e.value.attributes[0].key == e.key
    }

    ghost function Transactions(): set<Transaction>
      reads this
    {
      set e | e in instances :: e.value
    }

    /** The first pair under `key`, or None for the default pair whose Value is null. */
    function GetObject(key: string): (r: Option<Entry<Transaction>>)
      reads this
      ensures r.None? <==> !HasKey(instances, key)
      ensures r.Some? ==> r.value in instances && r.value.key == key
    {
      Find(instances, key)
    }

    /** The pair found is the one at the first position holding the key. */
    lemma GetObjectFindsFirst(key: string)
      ensures GetObject(key).Some? ==> GetObject(key).value == instances[FirstIndex(instances, key)]
    {
    }

    /** Appending a consistent transaction under its own, unseen key keeps the pool valid. */
    twostate lemma AppendKeepsValid(new e: Entry<Transaction>)
      requires old(Valid())
      requires instances == old(instances) + [e]
      requires !HasKey(old(instances), e.key)
      requires e.value.pool == this && e.value.Valid()
      requires |e.value.attributes| > 0 && e.value.attributes[0].key == e.key
      requires forall x | x in old(instances) :: unchanged(x.value)
      ensures Valid()
    {
      AppendUnseen(old(instances), e);
    }

    /** Removing the entry under a key, with the pooled transactions untouched, keeps the pool valid. */
    twostate lemma RemovalKeepsValid(key: string)
      requires instances == RemoveKey(old(instances), key)
      requires forall x | x in old(instances) :: unchanged(x.value)
      ensures old(Valid()) ==> Valid()
    {
      if old(Valid()) {
        RemoveKeyKeepsDistinct(old(instances), key);
        RemoveKeyOnlyDrops(old(instances), key);
      }
    }

    method Add(e: Entry<Transaction>)
      modifies this
      ensures instances == old(instances) + [e]
    {
      instances := instances + [e];
    }

    method Remove(key: string)
      modifies this
      ensures instances == RemoveKey(old(instances), key)
      ensures old(DistinctKeys(instances)) ==> DistinctKeys(instances) && GetObject(key) == None
      ensures old(Valid()) ==> Valid()
    {
      ghost var before := instances;
      var found := GetObject(key);
      if found.Some? {
        instances := RemoveFirstOccurrence(instances, found.value);
      }
      if DistinctKeys(before) {
        RemoveKeyKeepsDistinct(before, key);
      }
      RemovalKeepsValid(key);
    }
  }
}
