/**
 * Client runs of the engine as the data-access base class drives it
 * (OpenWebby.Data/Common/DataAccess.cs): one connection per data-access object, and a
 * fresh Command, built from that connection and the caller's stack trace, for every
 * operation. The driver's answers are the inputs of each call.
 */
module Scenarios {
  import opened Wrappers
  import opened Trace
  import opened PoolList
  import opened StepCounting
  import opened Transactions
  import opened Readers
  import opened Commands

  /** A caller that runs inside the shared transaction and declares `n` tasks. */
  predicate DeclaresTasks(caller: StackTrace, n: int)
  {
    && |caller.callerAttributes| > 0
    && caller.callerAttributes[0].inTransaction
    && caller.callerAttributes[0].tasks == n
  }

  /**
   * The first successful non-reader step of a caller declaring `n` > 0 tasks under a
   * key nobody holds: a new transaction is pooled, begun and counted once; with one
   * task that step already commits and removes it.
   */
  method FirstStep(connection: Connection, pool: TransactionPool, caller: StackTrace, n: int) returns (t: Transaction)
    requires pool.Valid() && DeclaresTasks(caller, n) && n > 0
    requires pool.GetObject(caller.callerAttributes[0].key).None?
    modifies connection, pool
    ensures pool.Valid()
    ensures fresh(t) && t.connection == connection && t.pool == pool
    ensures t.attributes == caller.callerAttributes && t.isRuning && t.rollbacks == 0
    ensures t.runningStep == 1 && t.commits == (if n == 1 then 1 else 0)
    ensures t.currentTransaction == Some(NativeHandle(old(connection.begun), caller.callerAttributes[0].isolation))
    ensures connection.begun == old(connection.begun) + 1
    ensures n > 1 ==> pool.instances == old(pool.instances) + [Entry(caller.callerAttributes[0].key, t)] && connection.state == ConnectionState.Open
    ensures n == 1 ==> pool.instances == old(pool.instances) && connection.state == Closed
  {
    var c := new Command(connection, caller, pool);
    var r, issued, openAtRun, ran := c.Execute(Returns(Null), [], None, Text);
    t := c.transaction;
  }

  /**
   * Step number `i` + 1 of the same caller, while its transaction `t` is pooled under
   * the key after the entries `rest`: the step joins `t` and is counted on it; it
   * commits, closes the connection and removes the key exactly when it is step `n`.
   */
  method NextStep(connection: Connection, pool: TransactionPool, caller: StackTrace, n: int, t: Transaction, i: int, ghost rest: seq<Entry<Transaction>>)
    requires pool.Valid() && DeclaresTasks(caller, n) && 1 <= i < n
    requires !HasKey(rest, caller.callerAttributes[0].key)
    requires pool.instances == rest + [Entry(caller.callerAttributes[0].key, t)]
    requires t.connection == connection && t.pool == pool && t.attributes == caller.callerAttributes
    requires t.isRuning && t.runningStep == i && connection.state == ConnectionState.Open
    modifies connection, pool, t
    ensures pool.Valid()
    ensures t.attributes == old(t.attributes) && t.isRuning && t.rollbacks == old(t.rollbacks)
    ensures t.runningStep == i + 1 && t.commits == old(t.commits) + (if i + 1 == n then 1 else 0)
    ensures connection.begun == old(connection.begun)
    ensures i + 1 < n ==> pool.instances == old(pool.instances) && connection.state == ConnectionState.Open
    ensures i + 1 == n ==> pool.instances == rest && connection.state == Closed
  {
    AppendUnseen(rest, Entry(caller.callerAttributes[0].key, t));
    var c := new Command(connection, caller, pool);
    var r, issued, openAtRun, ran := c.Execute(Returns(Null), [], None, Text);
  }

  /**
   * `n` successful non-reader steps of a caller declaring `n` tasks under a key nobody
   * holds: the first step creates and begins the shared transaction, the key stays
   * pooled until the n-th step, and that step commits, closes the connection and
   * removes the key. The number of commits is the one the step-counting rule predicts.
   */
  method SharedRun(connection: Connection, pool: TransactionPool, caller: StackTrace, n: int) returns (t: Transaction)
    requires pool.Valid() && DeclaresTasks(caller, n) && n > 0
    requires pool.GetObject(caller.callerAttributes[0].key).None?
    modifies connection, pool
    ensures pool.Valid() && pool.instances == old(pool.instances)
    ensures fresh(t) && t.runningStep == n && t.rollbacks == 0
    ensures t.commits == Commits(n, true, 0, n) == 1
    ensures connection.state == Closed && connection.begun == old(connection.begun) + 1
  {
    var key := caller.callerAttributes[0].key;
    ghost var rest := pool.instances;
    assert !HasKey(rest, key);
    t := FirstStep(connection, pool, caller, n);
    CommitsAtMostOnce(n, true, 0, 1);
    var i := 1;
    while i < n
      invariant 1 <= i <= n
      invariant pool.Valid()
      invariant fresh(t) && t.connection == connection && t.pool == pool
      invariant t.attributes == caller.callerAttributes && t.isRuning && t.rollbacks == 0
      invariant t.runningStep == i && t.commits == Commits(n, true, 0, i)
      invariant connection.begun == old(connection.begun) + 1
      invariant i < n ==> pool.instances == rest + [Entry(key, t)] && connection.state == ConnectionState.Open
      invariant i == n ==> pool.instances == rest && connection.state == Closed
    {
      NextStep(connection, pool, caller, n, t, i, rest);
      CommitsAtMostOnce(n, true, 0, i + 1);
      CommitsAtMostOnce(n, true, 0, i);
      i := i + 1;
    }
    SharedTransactionCommitsOnce(n, n);
  }

  /**
   * Two callers share a key but disagree about the task count: the first declares
   * three tasks, the second one. The second caller's step joins the pooled transaction,
   * whose stored attributes stay the first caller's, so that step is counted against
   * three tasks and does not commit, although its own declaration says one.
   */
  method DisagreeingTasks(connection: Connection, pool: TransactionPool, first: StackTrace, second: StackTrace)
    returns (t: Transaction)
    requires pool.Valid() && DeclaresTasks(first, 3) && DeclaresTasks(second, 1)
    requires second.callerAttributes[0].key == first.callerAttributes[0].key
    requires pool.GetObject(first.callerAttributes[0].key).None?
    modifies connection, pool
    ensures fresh(t) && t.attributes == first.callerAttributes && t.runningStep == 2 && t.commits == 0
    ensures pool.Valid() && pool.instances == old(pool.instances) + [Entry(first.callerAttributes[0].key, t)]
    ensures connection.state == ConnectionState.Open
  {
    var key := first.callerAttributes[0].key;
    ghost var rest := pool.instances;
    assert !HasKey(rest, key);
    t := FirstStep(connection, pool, first, 3);
    AppendUnseen(rest, Entry(key, t));
    var c := new Command(connection, second, pool);
    var r, issued, openAtRun, ran := c.Execute(Returns(Null), [], None, Text);
  }

  /**
   * A caller outside the shared transaction reads through a data reader and closes
   * it: the connection opened for the call stays open, because the reader holds no
   * transaction and its Close only closes the native reader.
   */
  method StandaloneReader(connection: Connection, pool: TransactionPool, caller: StackTrace, cursor: NativeReader)
    requires pool.Valid() && !IsTrasactionSupport(Some(caller.callerAttributes))
    modifies connection, pool, cursor
    ensures cursor.isClosed && connection.state == ConnectionState.Open
    ensures pool.instances == old(pool.instances)
  {
    var c := new Command(connection, caller, pool);
    var r, issued, openAtRun, ran := c.ExecuteReader(Opened(cursor), [], None, Text);
    var reader := r.value;
    reader.Close();
  }

  /**
   * The reader call of a caller declaring one task under a key nobody holds: the new
   * transaction is pooled and begun, and the step is left pending on the reader.
   */
  method OpenSharedReader(connection: Connection, pool: TransactionPool, caller: StackTrace, cursor: NativeReader)
    returns (t: Transaction, reader: DataReader)
    requires pool.Valid() && DeclaresTasks(caller, 1)
    requires pool.GetObject(caller.callerAttributes[0].key).None?
    modifies connection, pool
    ensures fresh(t) && t.connection == connection && t.pool == pool && t.attributes == caller.callerAttributes
    ensures t.isRuning && t.runningStep == 0 && t.commits == 0
    ensures reader.Valid() && reader.reader == cursor && reader.transaction == t
    ensures pool.Valid() && pool.instances == old(pool.instances) + [Entry(caller.callerAttributes[0].key, t)]
    ensures connection.state == ConnectionState.Open
  {
    var c := new Command(connection, caller, pool);
    var r, issued, openAtRun, ran := c.ExecuteReader(Opened(cursor), [], None, Text);
    t := c.transaction;
    reader := r.value;
  }

  /**
   * A caller declaring one task reads through a data reader under a key nobody holds:
   * the call leaves the step pending, and closing the reader counts it, which commits,
   * closes the connection and removes the key.
   */
  method SharedReader(connection: Connection, pool: TransactionPool, caller: StackTrace, cursor: NativeReader)
    returns (t: Transaction)
    requires pool.Valid() && DeclaresTasks(caller, 1)
    requires pool.GetObject(caller.callerAttributes[0].key).None?
    modifies connection, pool, cursor
    ensures fresh(t) && t.runningStep == 1 && t.commits == 1 && cursor.isClosed
    ensures pool.Valid() && pool.instances == old(pool.instances) && connection.state == Closed
  {
    var key := caller.callerAttributes[0].key;
    ghost var rest := pool.instances;
    assert !HasKey(rest, key);
    var reader;
    t, reader := OpenSharedReader(connection, pool, caller, cursor);
    AppendUnseen(rest, Entry(key, t));
    assert CommitFires(t.attributes[0].tasks, t.runningStep + 1, t.currentTransaction.Some?);
    reader.Close();
    assert pool.instances == RemoveKey(rest + [Entry(key, t)], key);
  }

  /**
   * A caller declaring `n` >= 2 tasks: step 1 succeeds and step 2 fails. The failure
   * reaches the caller, rolls the shared transaction back, closes its connection and
   * removes the key; the next step starts a new transaction on a new native handle.
   */
  method FailureRestarts(connection: Connection, pool: TransactionPool, caller: StackTrace, n: int, e: DbError)
    returns (first: Transaction, r: Result<Output, DbError>, second: Transaction)
    requires pool.Valid() && DeclaresTasks(caller, n) && n >= 2
    requires pool.GetObject(caller.callerAttributes[0].key).None?
    modifies connection, pool
    ensures r == Failure(e)
    ensures first.rollbacks == 1 && first.commits == 0 && first.runningStep == 1
    ensures fresh(second) && second != first && second.runningStep == 1 && second.commits == 0
    ensures first.currentTransaction == Some(NativeHandle(old(connection.begun), caller.callerAttributes[0].isolation))
    ensures second.currentTransaction == Some(NativeHandle(old(connection.begun) + 1, caller.callerAttributes[0].isolation))
    ensures pool.Valid() && pool.instances == old(pool.instances) + [Entry(caller.callerAttributes[0].key, second)]
  {
    var key := caller.callerAttributes[0].key;
    ghost var rest := pool.instances;
    assert !HasKey(rest, key);
    first := FirstStep(connection, pool, caller, n);
    r := FailingStep(connection, pool, caller, n, first, rest, e);
    second := FirstStep(connection, pool, caller, n);
  }

  /** A failing step that joins the running transaction `t`, pooled under the key after `rest`. */
  method FailingStep(connection: Connection, pool: TransactionPool, caller: StackTrace, n: int, t: Transaction,
                     ghost rest: seq<Entry<Transaction>>, e: DbError)
    returns (r: Result<Output, DbError>)
    requires pool.Valid() && DeclaresTasks(caller, n)
    requires !HasKey(rest, caller.callerAttributes[0].key)
    requires pool.instances == rest + [Entry(caller.callerAttributes[0].key, t)]
    requires t.connection == connection && t.pool == pool && t.isRuning
    modifies connection, pool, t
    ensures r == Failure(e) && pool.Valid() && pool.instances == rest
    ensures t.rollbacks == old(t.rollbacks) + 1 && t.commits == old(t.commits) && t.runningStep == old(t.runningStep)
    ensures t.currentTransaction == old(t.currentTransaction)
    ensures connection.state == Closed && connection.begun == old(connection.begun)
  {
    AppendUnseen(rest, Entry(caller.callerAttributes[0].key, t));
    var c := new Command(connection, caller, pool);
    var issued;
    ghost var openAtRun, ran;
    r, issued, openAtRun, ran := c.Execute(Throws(e), [], None, Text);
  }

  /**
   * A first step that fails, for a caller declaring `n` > 0 tasks under a key nobody
   * holds: the transaction created for it was begun, so the error handler rolls it
   * back natively, which closes the connection and removes the key again; the error
   * reaches the caller and nothing is committed.
   */
  method FailingFirstStep(connection: Connection, pool: TransactionPool, caller: StackTrace, n: int, e: DbError)
    returns (r: Result<Output, DbError>, ghost t: Transaction?)
    requires pool.Valid() && DeclaresTasks(caller, n) && n > 0
    requires pool.GetObject(caller.callerAttributes[0].key).None?
    modifies connection, pool
    ensures r == Failure(e)
    ensures t != null && fresh(t) && t.connection == connection && t.attributes == caller.callerAttributes
    ensures t.rollbacks == 1 && t.commits == 0 && t.runningStep == 0
    ensures t.currentTransaction == Some(NativeHandle(old(connection.begun), caller.callerAttributes[0].isolation))
    ensures pool.Valid() && pool.instances == old(pool.instances)
    ensures connection.state == Closed && connection.begun == old(connection.begun) + 1
  {
    var c := new Command(connection, caller, pool);
    var issued;
    ghost var openAtRun;
    r, issued, openAtRun, t := c.Execute(Throws(e), [], None, Text);
  }

  /**
   * A caller declaring zero tasks, on a closed connection: the first step pools a
   * transaction that is never begun and runs its command on the closed connection; a
   * second step joins that entry and does the same. A third step, also run on the
   * closed connection, fails: the error reaches the caller, but the transaction is not
   * running, so nothing is rolled back and the entry is not removed. Nothing commits,
   * no native transaction is begun, and the key stays pooled whether steps succeed or
   * fail.
   */
  method ZeroTasks(connection: Connection, pool: TransactionPool, caller: StackTrace, e: DbError)
    returns (t: Transaction, ghost firstOpen: bool, ghost secondOpen: bool, ghost thirdOpen: bool, failed: Result<Output, DbError>)
    requires pool.Valid() && DeclaresTasks(caller, 0)
    requires pool.GetObject(caller.callerAttributes[0].key).None?
    requires connection.state == Closed
    modifies connection, pool
    ensures !firstOpen && !secondOpen && !thirdOpen && failed == Failure(e)
    ensures fresh(t) && !t.isRuning && t.commits == 0 && t.rollbacks == 0 && t.runningStep == 2
    ensures pool.instances == old(pool.instances) + [Entry(caller.callerAttributes[0].key, t)]
    ensures connection.state == Closed && connection.begun == old(connection.begun)
  {
    var key := caller.callerAttributes[0].key;
    ghost var rest := pool.instances;
    var c := new Command(connection, caller, pool);
    var r, issued;
    ghost var ran;
    r, issued, firstOpen, ran := c.Execute(Returns(Null), [], None, Text);
    t := c.transaction;
    r, secondOpen := JoinIdle(connection, pool, caller, t, rest, Returns(Null));
    failed, thirdOpen := JoinIdle(connection, pool, caller, t, rest, Throws(e));
  }

  /**
   * A step, finished or failed, of a caller declaring zero tasks that joins the
   * transaction `t` pooled under the key after `rest`, which was never begun: a
   * success is counted without committing, a failure rolls nothing back, and the pool
   * and the connection stay as they are.
   */
  method JoinIdle(connection: Connection, pool: TransactionPool, caller: StackTrace, t: Transaction,
                  ghost rest: seq<Entry<Transaction>>, native: NativeOutcome)
    returns (r: Result<Output, DbError>, ghost openAtRun: bool)
    requires pool.Valid() && DeclaresTasks(caller, 0)
    requires !HasKey(rest, caller.callerAttributes[0].key)
    requires pool.instances == rest + [Entry(caller.callerAttributes[0].key, t)]
    requires t.connection == connection && t.pool == pool && t.attributes == caller.callerAttributes && !t.isRuning
    requires native.Returns? ==> !IsDbDataReaderOpen(native.output)
    modifies connection, pool, t
    ensures r == (match native case Returns(o) => Success(o) case Throws(x) => Failure(x))
    ensures pool.Valid() && pool.instances == old(pool.instances)
    ensures t.connection == connection && t.pool == pool && t.attributes == old(t.attributes)
    ensures !t.isRuning && t.commits == old(t.commits) && t.rollbacks == old(t.rollbacks)
    ensures t.runningStep == old(t.runningStep) + (if native.Returns? then 1 else 0)
    ensures openAtRun == (old(connection.state) == ConnectionState.Open)
    ensures connection.state == old(connection.state) && connection.begun == old(connection.begun)
  {
    AppendUnseen(rest, Entry(caller.callerAttributes[0].key, t));
    var c := new Command(connection, caller, pool);
    var issued;
    ghost var ran;
    r, issued, openAtRun, ran := c.Execute(native, [], None, Text);
  }
}
