/**
 * The execution engine (OpenWebby.Data/Common/Command.cs): builds the native command,
 * chooses the standalone or the transactional path from the caller's attributes,
 * attaches to or creates the pooled transaction, records the step, and rolls back and
 * rethrows on failure. The driver is an input: what the native call returns or throws.
 */
module Commands {
  import opened Wrappers
  import opened Attributes
  import opened Trace
  import opened PoolList
  import opened StepCounting
  import opened Transactions
  import opened Readers

  /** System.Data.CommandType. */
  datatype CommandType = Text | StoredProcedure | TableDirect

  /** A provider parameter as the parameter factory built it; its value is kept as text. */
  datatype Parameter = Parameter(name: string, value: string)

  /** The exception a native call throws. */
  datatype DbError = DbError(message: string)

  /** `ArgumentNullException` with the name of the offending argument. */
  datatype ArgumentNull = ArgumentNull(paramName: string)

  /** What a native command returns: null, a value, or a data reader. */
  datatype Output = Null | Scalar(value: int) | Reader(cursor: NativeReader)

  /** The driver's behaviour for one native command call. */
  datatype NativeOutcome = Returns(output: Output) | Throws(error: DbError)

  /** The driver's behaviour for `IDbCommand.ExecuteReader`. */
  datatype ReaderOutcome = Opened(cursor: NativeReader) | ReaderThrows(readerError: DbError)

  /** The driver's behaviour for `DbDataAdapter.Fill`: the number of rows, or an exception. */
  datatype FillOutcome = Filled(rows: int) | FillThrows(fillError: DbError)

  /**
   * The result-kind test that replaces the run-time type test on the result: only a
   * reader counts as an open reader, and a null result never does.
   */
  predicate IsDbDataReaderOpen(output: Output): (b: bool)
    ensures output == Null || output.Scalar? ==> !b
    ensures output.Reader? ==> b
  {
    output.Reader?
  }

  /** The native `IDbCommand` a connection creates. */
  class DbCommand {
    var commandText: string
    var commandType: CommandType
    var parameters: seq<Parameter>
    var transaction: Option<NativeHandle>

    constructor ()
      ensures commandText == [] && commandType == Text && parameters == [] && transaction == None
    {
      commandText := [];
      commandType := Text;
      parameters := [];
      transaction := None;
    }
  }

  /** A provider `DbDataAdapter`; only its select command is modelled. */
  class DataAdapter {
    var selectCommand: DbCommand?

    constructor ()
      ensures selectCommand == null
    {
      selectCommand := null;
    }
  }

  class Command {
    const connection: Connection
    const stackTrace: StackTrace
    const pool: TransactionPool
    var transaction: Transaction?

    constructor (connection: Connection, stackTrace: StackTrace, pool: TransactionPool)
      ensures this.connection == connection && this.stackTrace == stackTrace && this.pool == pool
      ensures transaction == null
    {
      this.connection := connection;
      this.stackTrace := stackTrace;
      this.pool := pool;
      transaction := null;
    }

    /** The constructor's argument guards: a null connection is reported first, then a null stack trace. */
    static method Create(connection: Connection?, stackTrace: Option<StackTrace>, pool: TransactionPool)
      returns (r: Result<Command, ArgumentNull>)
      ensures connection == null ==> r == Failure(ArgumentNull("connection"))
      ensures connection != null && stackTrace == None ==> r == Failure(ArgumentNull("stackTrace"))
      ensures connection != null && stackTrace != None ==>
        && r.Success? && fresh(r.value)
        && r.value.connection == connection && r.value.stackTrace == stackTrace.value
        && r.value.pool == pool && r.value.transaction == null
    {
      if connection == null {
        return Failure(ArgumentNull("connection"));
      }
      if stackTrace == None {
        return Failure(ArgumentNull("stackTrace"));
      }
      var c := new Command(connection, stackTrace.value, pool);
      r := Success(c);
    }

    /** The attributes the caller declared, as the trace helper reports them. */
    function CallerAttributes(): Option<seq<TransactionSupport>>
    {
      GetCustomAttribute(Some(stackTrace))
    }

    predicate Transactional()
    {
      IsTrasactionSupport(CallerAttributes())
    }

    /** The first attribute: the only one the engine reads. */
    function Declared(): TransactionSupport
      requires Transactional()
    {
      CallerAttributes().value[0]
    }

    /** A held transaction is one this engine set up: consistent, attributes stored, in this pool. */
    ghost predicate Valid()
      reads this, if transaction == null then {} else {transaction}
    {
      transaction != null ==>
        transaction.Valid() && |transaction.attributes| > 0 && transaction.pool == pool
    }

    /** The held transaction and its connection, which the error handler may roll back and close. */
    ghost function Held(): set<object>
      reads this
    {
      if transaction == null then {} else {transaction, transaction.connection}
    }

    /**
     * The pooled transaction this caller's step would join, with its connection: the
     * only pooled objects a step may change.
     */
    ghost function Joinable(): set<object>
      reads this, pool
    {
      if Transactional() then
        match pool.GetObject(Declared().key)
        case Some(e) => {e.value, e.value.connection}
        case None => {}
      else {}
    }

    /** `cmd` carries the text, the command type and every parameter of the collection, in order. */
    ghost predicate Built(cmd: DbCommand, commandText: string, parameterCollection: Option<seq<Parameter>>, commandType: CommandType)
      reads cmd
    {
      && cmd.commandText == commandText
      && cmd.commandType == commandType
      && cmd.parameters == (match parameterCollection case None => [] case Some(ps) => ps)
    }

    method BuildCommand(commandText: string, parameterCollection: Option<seq<Parameter>>, commandType: CommandType)
      returns (cmd: DbCommand)
      ensures fresh(cmd)
      ensures Built(cmd, commandText, parameterCollection, commandType)
      ensures cmd.transaction == None
    {
      cmd := new DbCommand();
      cmd.commandText := commandText;
      cmd.commandType := commandType;
      if parameterCollection != None {
        var ps := parameterCollection.value;
        var i := 0;
        while i < |ps|
          invariant 0 <= i <= |ps|
          invariant cmd.parameters == ps[..i]
          invariant cmd.commandText == commandText && cmd.commandType == commandType
          invariant cmd.transaction == None
        {
          cmd.parameters := cmd.parameters + [ps[i]];
          i := i + 1;
        }
      }
    }

    /**
     * Attaches `cmd` to the pooled transaction for the first attribute's key. An
     * existing entry is reused and its handle attached; otherwise a new transaction is
     * appended under the key (AddTransaction).
     */
    method BeginTransaction(attributes: seq<TransactionSupport>, cmd: DbCommand)
      requires |attributes| > 0 && pool.Valid()
      modifies this, pool, connection, cmd
      ensures pool.Valid() && Valid() && transaction != null
      ensures cmd.commandText == old(cmd.commandText) && cmd.commandType == old(cmd.commandType)
      ensures cmd.parameters == old(cmd.parameters)
      ensures old(pool.GetObject(attributes[0].key)).Some? ==>
        var t := old(pool.GetObject(attributes[0].key)).value.value;
        && transaction == t
        && cmd.transaction == t.currentTransaction
        && pool.instances == old(pool.instances)
        && connection.state == old(connection.state) && connection.begun == old(connection.begun)
      ensures old(pool.GetObject(attributes[0].key)).None? ==> Added(attributes, cmd)
    {
      var declared := attributes[0];
      var found := pool.GetObject(declared.key);
      transaction := if found.Some? then found.value.value else null;
      if transaction == null {
        AddTransaction(attributes, cmd);
      } else {
        assert found.value in pool.instances;
        cmd.transaction := transaction.currentTransaction;
      }
    }

    /**
     * The state after a first step under an unseen key: one new transaction, appended
     * under the key, holding this caller's attributes, with no step recorded; begun,
     * attached to `cmd` and with the connection open exactly when the declared task
     * count is positive.
     */
    twostate predicate Added(attributes: seq<TransactionSupport>, cmd: DbCommand)
      requires |attributes| > 0
      reads this, pool, connection, cmd, transaction
    {
      var t := transaction;
      var tasks := attributes[0].tasks;
      && t != null && fresh(t) && t.connection == connection && t.pool == pool
      && t.attributes == attributes && t.runningStep == 0 && t.commits == 0 && t.rollbacks == 0
      && pool.instances == old(pool.instances) + [Entry(attributes[0].key, t)]
      && (tasks > 0 ==>
            && t.isRuning
            && t.currentTransaction == Some(NativeHandle(old(connection.begun), attributes[0].isolation))
            && cmd.transaction == t.currentTransaction
            && connection.state == Open && connection.begun == old(connection.begun) + 1)
      && (tasks <= 0 ==>
            && !t.isRuning && t.currentTransaction == None
            && cmd.transaction == old(cmd.transaction)
            && connection.state == old(connection.state) && connection.begun == old(connection.begun))
    }

    /** The branch of BeginTransaction taken when the lookup finds no entry for the key. */
    method AddTransaction(attributes: seq<TransactionSupport>, cmd: DbCommand)
      requires |attributes| > 0 && pool.Valid() && pool.GetObject(attributes[0].key).None?
      modifies this, pool, connection, cmd
      ensures pool.Valid() && Valid()
      ensures cmd.commandText == old(cmd.commandText) && cmd.commandType == old(cmd.commandType)
      ensures cmd.parameters == old(cmd.parameters)
      ensures Added(attributes, cmd)
    {
      var declared := attributes[0];
      ghost var before := pool.instances;
      var created := new Transaction(connection, pool);
      pool.Add(Entry(declared.key, created));
      AppendUnseen(before, Entry(declared.key, created));
      transaction := pool.GetObject(declared.key).value.value;
      assert transaction == created;
      InitTransaction(attributes, cmd);
      assert forall x | x in before :: unchanged(x.value);
      pool.AppendKeepsValid(Entry(declared.key, created));
    }

    /**
     * The new transaction takes this caller's attributes, and is begun, with its handle
     * attached to `cmd`, when the declared task count is positive.
     */
    method InitTransaction(attributes: seq<TransactionSupport>, cmd: DbCommand)
      requires |attributes| > 0 && transaction != null && transaction.connection == connection
      requires transaction.runningStep == 0 && !transaction.isRuning && transaction.currentTransaction == None
      modifies transaction, connection, cmd
      ensures transaction.Valid() && transaction.attributes == attributes && transaction.runningStep == 0
      ensures transaction.commits == old(transaction.commits) && transaction.rollbacks == old(transaction.rollbacks)
      ensures cmd.commandText == old(cmd.commandText) && cmd.commandType == old(cmd.commandType)
      ensures cmd.parameters == old(cmd.parameters)
      ensures attributes[0].tasks > 0 ==>
        && transaction.isRuning
        && transaction.currentTransaction == Some(NativeHandle(old(connection.begun), attributes[0].isolation))
        && cmd.transaction == transaction.currentTransaction
        && connection.state == Open && connection.begun == old(connection.begun) + 1
      ensures attributes[0].tasks <= 0 ==>
        && !transaction.isRuning && transaction.currentTransaction == None
        && cmd.transaction == old(cmd.transaction)
        && connection.state == old(connection.state) && connection.begun == old(connection.begun)
    {
      transaction.attributes := attributes;
      if transaction.attributes[0].tasks > 0 && transaction.runningStep == 0 {
        var h := transaction.Begin(transaction.attributes[0].isolation);
        cmd.transaction := Some(h);
      }
    }

    /**
     * The catch block: a held transaction that is running is rolled back, the field is
     * cleared, and the same exception is rethrown (returned as the failure).
     */
    method OnError<T>(ex: DbError) returns (r: Result<T, DbError>)
      requires Valid()
      modifies this, Held(), pool
      ensures r == Failure(ex) && transaction == null
      ensures old(transaction) != null && old(transaction.isRuning) ==> old(transaction).RolledBack()
      ensures old(transaction) == null || !old(transaction.isRuning) ==>
        pool.instances == old(pool.instances) && connection.state == old(connection.state)
      ensures old(transaction) != null && !old(transaction.isRuning) ==>
        unchanged(old(transaction), old(transaction).connection)
      ensures old(pool.Valid()) ==> pool.Valid()
    {
      if transaction != null {
        if transaction.isRuning {
          transaction.Rollback();
        }
        transaction := null;
      }
      r := Failure(ex);
    }

    /**
     * The standalone path, for a caller without a transactional attribute: the
     * connection is opened for the call and, once a successful step is finished, closed
     * again; a failing step leaves it open. The pool is not consulted and no handle is
     * attached. On failure a transaction
     * still held from an earlier call of this command is rolled back if running, and
     * released.
     */
    twostate predicate StandaloneEffect(held: Transaction?, new issued: DbCommand, succeeded: bool, finished: bool, openAtRun: bool)
      reads this, connection, pool, issued, if held == null then {} else {held, held.connection, held.pool}
    {
      && openAtRun
      && issued.transaction == None
      && connection.begun == old(connection.begun)
      && if succeeded then
           && transaction == held
           && pool.instances == old(pool.instances)
           && connection.state == (if finished then Closed else ConnectionState.Open)
           && (held != null ==> unchanged(held))
           && (held != null && held.connection != connection ==> unchanged(held.connection))
         else
           && transaction == null
           && if held != null && old(held.isRuning) then
                && held.RolledBack()
                && (held.connection != connection ==> connection.state == ConnectionState.Open)
              else
                && pool.instances == old(pool.instances)
                && connection.state == ConnectionState.Open
                && (held != null ==> unchanged(held))
                && (held != null && held.connection != connection ==> unchanged(held.connection))
    }

    /**
     * The transactional path: the step joins the pooled transaction for the declared
     * key when there is one, and otherwise creates one.
     */
    twostate predicate TransactionalEffect(new issued: DbCommand, new ran: Transaction?, succeeded: bool, finished: bool, openAtRun: bool)
      requires Transactional()
      reads *
    {
      var found := old(pool.GetObject(Declared().key));
      if found.Some? then ran == found.value.value && Joined(found.value.value, issued, succeeded, finished, openAtRun)
      else Created(issued, ran, succeeded, finished, openAtRun)
    }

    /**
     * On the transactional path a transaction `held` from an earlier call of this
     * command is only overwritten in the field: unless it is among the `joinable`
     * objects, it and its own connection stay as they were.
     */
    twostate predicate EarlierHeldKept(held: Transaction?, joinable: set<object>)
      reads this, if held == null then {} else {held, held.connection}
    {
      held != null && held !in joinable ==>
        && unchanged(held)
        && (held.connection !in joinable && held.connection != connection ==> unchanged(held.connection))
    }

    /**
     * What the rest of a transactional step does to the transaction `t` it runs in: a
     * finished step is counted on `t` (and may commit it); an unfinished one (an open
     * reader) leaves `t` as it was; a failure rolls `t` back when it is running and
     * releases it.
     */
    twostate predicate Concluded(t: Transaction, succeeded: bool, finished: bool)
      reads this, pool, t, t.connection, t.pool
    {
      && t.connection.begun == old(t.connection.begun)
      && if succeeded then
           && transaction == t
           && if finished then t.Stepped()
              else unchanged(t) && pool.instances == old(pool.instances) && t.connection.state == old(t.connection.state)
         else
           && transaction == null
           && if old(t.isRuning) then t.RolledBack()
              else unchanged(t) && pool.instances == old(pool.instances) && t.connection.state == old(t.connection.state)
    }

    /**
     * A step that joins the pooled transaction `t`: the command gets `t`'s handle and
     * runs on the connection as it is; then the step concludes on `t`.
     */
    twostate predicate Joined(t: Transaction, new issued: DbCommand, succeeded: bool, finished: bool, openAtRun: bool)
      reads this, connection, pool, issued, t, t.connection, t.pool
    {
      && issued.transaction == old(t.currentTransaction)
      && openAtRun == (old(connection.state) == ConnectionState.Open)
      && connection.begun == old(connection.begun)
      && (t.connection != connection ==> connection.state == old(connection.state))
      && Concluded(t, succeeded, finished)
    }

    /**
     * A step under a key with no pooled transaction: a new transaction holding this
     * caller's attributes is appended under the key and, when the declared task count is
     * positive, begun on this connection with its handle attached to the command. A
     * finished step is then counted on it, which commits and removes it at once when one
     * task was declared. A failure rolls a begun transaction back natively and removes
     * it; one never begun stays in the pool. `ran` is the new transaction, which after a
     * rollback nothing holds any more.
     */
    twostate predicate Created(new issued: DbCommand, new ran: Transaction?, succeeded: bool, finished: bool, openAtRun: bool)
      requires Transactional()
      reads this, connection, pool, issued, transaction, ran, pool.Transactions()
    {
      var declared := Declared();
      var tasks := declared.tasks;
      var n := |old(pool.instances)|;
      && connection.begun == old(connection.begun) + (if tasks > 0 then 1 else 0)
      && openAtRun == (tasks > 0 || old(connection.state) == ConnectionState.Open)
      && issued.transaction == (if tasks > 0 then Some(NativeHandle(old(connection.begun), declared.isolation)) else None)
      && if succeeded then
           var t := transaction;
           && t == ran && t != null && fresh(t) && t.connection == connection && t.pool == pool
           && t.attributes == CallerAttributes().value && t.rollbacks == 0
           && t.currentTransaction == issued.transaction && t.isRuning == (tasks > 0)
           && if finished then
                var fires := CommitFires(tasks, 1, tasks > 0);
                && t.runningStep == 1 && t.commits == (if fires then 1 else 0)
                && pool.instances == (if fires then old(pool.instances) else old(pool.instances) + [Entry(declared.key, t)])
                && connection.state == (if fires then Closed else if tasks > 0 then ConnectionState.Open else old(connection.state))
              else
                && t.runningStep == 0 && t.commits == 0
                && pool.instances == old(pool.instances) + [Entry(declared.key, t)]
                && connection.state == (if tasks > 0 then ConnectionState.Open else old(connection.state))
         else
           && transaction == null
           && if tasks > 0 then
                && pool.instances == old(pool.instances) && connection.state == Closed
                && ran != null && fresh(ran) && ran.connection == connection && ran.pool == pool
                && ran.attributes == CallerAttributes().value
                && ran.isRuning && ran.currentTransaction == issued.transaction
                && ran.runningStep == 0 && ran.commits == 0 && ran.rollbacks == 1
              else
                && |pool.instances| == n + 1 && pool.instances[..n] == old(pool.instances)
                && connection.state == old(connection.state)
                && var t := pool.instances[n].value;
                   && t == ran && pool.instances[n].key == declared.key && fresh(t)
                   && t.connection == connection && t.pool == pool
                   && t.attributes == CallerAttributes().value && t.runningStep == 0
                   && !t.isRuning && t.currentTransaction == None && t.commits == 0 && t.rollbacks == 0
    }

    /** A call finishes its step unless it hands an open reader back to the caller. */
    predicate Finishes(r: Result<Output, DbError>)
    {
      r.Success? && !IsDbDataReaderOpen(r.value)
    }

    /**
     * The transactional try block: attach to or create the pooled transaction, run the
     * native call, and count the step unless the result is an open reader; a failure
     * goes to the error handler. The two outcomes of the pool lookup that
     * BeginTransaction makes are verified separately (JoinAndRun, CreateAndRun); both
     * run the same statements, starting with the command that Execute builds first.
     * `ran` is the transaction the step runs in.
     */
    method RunInTransaction(native: NativeOutcome, commandText: string, parameterCollection: Option<seq<Parameter>>, commandType: CommandType)
      returns (r: Result<Output, DbError>, issued: DbCommand, ghost openAtRun: bool, ghost ran: Transaction?)
      requires Transactional() && Valid() && pool.Valid()
      modifies this, connection, pool, Joinable()
      ensures r == (match native case Returns(o) => Success(o) case Throws(e) => Failure(e))
      ensures fresh(issued) && Built(issued, commandText, parameterCollection, commandType)
      ensures Valid() && pool.Valid()
      ensures TransactionalEffect(issued, ran, r.Success?, Finishes(r), openAtRun)
      ensures EarlierHeldKept(old(transaction), old(Joinable()))
    {
      if pool.GetObject(Declared().key).Some? {
        r, issued, openAtRun, ran := JoinAndRun(native, commandText, parameterCollection, commandType);
      } else {
        r, issued, openAtRun, ran := CreateAndRun(native, commandText, parameterCollection, commandType);
      }
    }

    /** The transactional try block when the declared key is pooled. */
    method JoinAndRun(native: NativeOutcome, commandText: string, parameterCollection: Option<seq<Parameter>>, commandType: CommandType)
      returns (r: Result<Output, DbError>, issued: DbCommand, ghost openAtRun: bool, ghost ran: Transaction?)
      requires Transactional() && Valid() && pool.Valid() && pool.GetObject(Declared().key).Some?
      modifies this, connection, pool, Joinable()
      ensures r == (match native case Returns(o) => Success(o) case Throws(e) => Failure(e))
      ensures fresh(issued) && Built(issued, commandText, parameterCollection, commandType)
      ensures Valid() && pool.Valid()
      ensures ran == old(pool.GetObject(Declared().key)).value.value
      ensures Joined(old(pool.GetObject(Declared().key)).value.value, issued, r.Success?, Finishes(r), openAtRun)
    {
      issued := BuildCommand(commandText, parameterCollection, commandType);
      var attributes := CallerAttributes().value;
      BeginTransaction(attributes, issued);
      ran := transaction;
      openAtRun := connection.state == ConnectionState.Open;
      r := Conclude(native);
    }

    /** The transactional try block when the declared key is not pooled. */
    method CreateAndRun(native: NativeOutcome, commandText: string, parameterCollection: Option<seq<Parameter>>, commandType: CommandType)
      returns (r: Result<Output, DbError>, issued: DbCommand, ghost openAtRun: bool, ghost ran: Transaction?)
      requires Transactional() && Valid() && pool.Valid() && pool.GetObject(Declared().key).None?
      modifies this, connection, pool
      ensures r == (match native case Returns(o) => Success(o) case Throws(e) => Failure(e))
      ensures fresh(issued) && Built(issued, commandText, parameterCollection, commandType)
      ensures Valid() && pool.Valid()
      ensures Created(issued, ran, r.Success?, Finishes(r), openAtRun)
    {
      issued := BuildCommand(commandText, parameterCollection, commandType);
      r, openAtRun, ran := CreateAndConclude(native, issued);
    }

    /** CreateAndRun once the command is built: create the transaction, run, conclude. */
    method CreateAndConclude(native: NativeOutcome, issued: DbCommand)
      returns (r: Result<Output, DbError>, ghost openAtRun: bool, ghost ran: Transaction?)
      requires Transactional() && Valid() && pool.Valid() && pool.GetObject(Declared().key).None?
      requires issued.transaction == None
      modifies this, connection, pool, issued
      ensures r == (match native case Returns(o) => Success(o) case Throws(e) => Failure(e))
      ensures issued.commandText == old(issued.commandText) && issued.commandType == old(issued.commandType)
      ensures issued.parameters == old(issued.parameters)
      ensures Valid() && pool.Valid()
      ensures Created(issued, ran, r.Success?, Finishes(r), openAtRun)
    {
      ghost var before := pool.instances;
      var attributes := CallerAttributes().value;
      BeginTransaction(attributes, issued);
      assert Added(attributes, issued);
      ran := transaction;
      openAtRun := connection.state == ConnectionState.Open;
      AppendUnseen(before, Entry(attributes[0].key, transaction));
      r := Conclude(native);
    }

    /** The rest of the transactional try block, once the transaction is attached. */
    method Conclude(native: NativeOutcome) returns (r: Result<Output, DbError>)
      requires Valid() && pool.Valid() && transaction != null
      modifies this, pool, transaction, transaction.connection
      ensures r == (match native case Returns(o) => Success(o) case Throws(e) => Failure(e))
      ensures Valid() && pool.Valid()
      ensures Concluded(old(transaction), r.Success?, Finishes(r))
    {
      match native
      case Throws(e) =>
        r := OnError(e);
      case Returns(output) =>
        if !IsDbDataReaderOpen(output) {
          transaction.Commit();
        }
        r := Success(output);
    }

    /**
     * The standalone try block, after the command is built: open the connection, run
     * the native call, and close the connection unless the result is an open reader; a
     * failure goes to the error handler.
     */
    method RunStandalone(native: NativeOutcome, commandText: string, parameterCollection: Option<seq<Parameter>>, commandType: CommandType)
      returns (r: Result<Output, DbError>, issued: DbCommand, ghost openAtRun: bool)
      requires !Transactional() && Valid() && pool.Valid()
      modifies this, connection, pool, Held()
      ensures r == (match native case Returns(o) => Success(o) case Throws(e) => Failure(e))
      ensures fresh(issued) && Built(issued, commandText, parameterCollection, commandType)
      ensures Valid() && pool.Valid()
      ensures StandaloneEffect(old(transaction), issued, r.Success?, Finishes(r), openAtRun)
    {
      issued := BuildCommand(commandText, parameterCollection, commandType);
      connection.Open();
      openAtRun := connection.state == ConnectionState.Open;
      match native
      case Throws(e) =>
        r := OnError(e);
      case Returns(output) =>
        if !IsDbDataReaderOpen(output) {
          connection.Close();
        }
        r := Success(output);
    }

    /**
     * Runs one native command call. The driver's outcome is passed through: a value is
     * returned as is and an exception is rethrown, never swallowed. `openAtRun` records
     * whether the connection was open when the native call ran, and `ran` is the
     * transaction the step ran in (none on the standalone path). The command is built
     * first, in either branch.
     */
    method Execute(native: NativeOutcome, commandText: string, parameterCollection: Option<seq<Parameter>>, commandType: CommandType)
      returns (r: Result<Output, DbError>, issued: DbCommand, ghost openAtRun: bool, ghost ran: Transaction?)
      requires Valid() && pool.Valid()
      modifies this, connection, pool, Joinable(), Held()
      ensures r == (match native case Returns(o) => Success(o) case Throws(e) => Failure(e))
      ensures fresh(issued) && Built(issued, commandText, parameterCollection, commandType)
      ensures Valid() && pool.Valid()
      ensures !Transactional() ==> StandaloneEffect(old(transaction), issued, r.Success?, Finishes(r), openAtRun)
      ensures !Transactional() ==> ran == null
      ensures Transactional() ==> TransactionalEffect(issued, ran, r.Success?, Finishes(r), openAtRun)
      ensures Transactional() ==> EarlierHeldKept(old(transaction), old(Joinable()))
    {
      var attributes := GetCustomAttribute(Some(stackTrace));
      if IsTrasactionSupport(attributes) {
        r, issued, openAtRun, ran := RunInTransaction(native, commandText, parameterCollection, commandType);
      } else {
        r, issued, openAtRun := RunStandalone(native, commandText, parameterCollection, commandType);
        ran := null;
      }
    }

    /**
     * The adapter variant. Its body is Execute's with the fill in place of the native
     * call and with no reader test: a fill result is never a reader, so a successful
     * step always finishes, the shared transaction counts it and the standalone path
     * closes the connection. The built command becomes the adapter's select command.
     * The source sets it before the fill, which runs it; here the fill is an outcome
     * given as input, so setting it after the step changes nothing the model computes.
     */
    method ExecuteAdapter(fill: FillOutcome, adapter: DataAdapter, commandText: string, parameterCollection: Option<seq<Parameter>>, commandType: CommandType)
      returns (r: Result<int, DbError>, issued: DbCommand, ghost openAtRun: bool, ghost ran: Transaction?)
      requires Valid() && pool.Valid()
      modifies this, connection, pool, Joinable(), Held(), adapter
      ensures r == (match fill case Filled(rows) => Success(rows) case FillThrows(e) => Failure(e))
      ensures fresh(issued) && Built(issued, commandText, parameterCollection, commandType)
      ensures adapter.selectCommand == issued
      ensures Valid() && pool.Valid()
      ensures !Transactional() ==> StandaloneEffect(old(transaction), issued, r.Success?, r.Success?, openAtRun)
      ensures !Transactional() ==> ran == null
      ensures Transactional() ==> TransactionalEffect(issued, ran, r.Success?, r.Success?, openAtRun)
      ensures Transactional() ==> EarlierHeldKept(old(transaction), old(Joinable()))
    {
      var native := match fill case Filled(rows) => Returns(Scalar(rows)) case FillThrows(e) => Throws(e);
      var outcome;
      outcome, issued, openAtRun, ran := Execute(native, commandText, parameterCollection, commandType);
      adapter.selectCommand := issued;
      r := match fill case Filled(rows) => Success(rows) case FillThrows(e) => Failure(e);
    }

    /**
     * The reader variant: the native reader is wrapped together with the transaction
     * this command holds after the call, so that closing it counts the deferred step.
     */
    method ExecuteReader(native: ReaderOutcome, commandText: string, parameterCollection: Option<seq<Parameter>>, commandType: CommandType)
      returns (r: Result<DataReader, DbError>, issued: DbCommand, ghost openAtRun: bool, ghost ran: Transaction?)
      requires Valid() && pool.Valid()
      modifies this, connection, pool, Joinable(), Held()
      ensures native.ReaderThrows? ==> r == Failure(native.readerError)
      ensures native.Opened? ==>
        && r.Success? && fresh(r.value) && r.value.Valid()
        && r.value.reader == native.cursor && r.value.transaction == transaction
      ensures fresh(issued) && Built(issued, commandText, parameterCollection, commandType)
      ensures Valid() && pool.Valid()
      ensures !Transactional() ==> StandaloneEffect(old(transaction), issued, r.Success?, false, openAtRun)
      ensures !Transactional() ==> ran == null
      ensures Transactional() ==> TransactionalEffect(issued, ran, r.Success?, false, openAtRun)
      ensures Transactional() ==> EarlierHeldKept(old(transaction), old(Joinable()))
    {
      var call := match native case Opened(cursor) => Returns(Reader(cursor)) case ReaderThrows(e) => Throws(e);
      var outcome;
      outcome, issued, openAtRun, ran := Execute(call, commandText, parameterCollection, commandType);
      match outcome
      case Failure(e) =>
        r := Failure(e);
      case Success(output) =>
        var reader := new DataReader(output.cursor, transaction);
        r := Success(reader);
    }
  }
}
