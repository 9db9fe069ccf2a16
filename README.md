# OpenWebby.Data shared-transaction coordinator in Dafny

This project models the part of OpenWebby.Data that lets several separately invoked
data operations share one native database transaction.

- A call site declares `[TransactionSupport(key, tasks)]`.
- Each operation gets a fresh `Command`. The command reads the caller's attributes and
  chooses between two paths:
  - **Standalone**: open the connection, run, and, on success, close the connection
    unless the result is an open reader. A failing step leaves it open.
  - **Transactional**: look the key up in the process-wide `TransactionPool`. If the key
    is absent, a new `Transaction` is appended, and it is begun only when `Tasks > 0`.
- After the native call, `Transaction.Commit` counts one step. The real commit,
  connection close and pool removal happen only on the step whose number equals the
  declared `Tasks`.
- A reader result defers the step to `DataReader.Close`.
- On failure, a running transaction is rolled back and removed from the pool, and the
  exception is rethrown.

Modules, one per source file or concern:

| module | file | models |
|---|---|---|
| `Wrappers` | `wrappers.dfy` | `Option` stands for null and `Result` for an exception |
| `Attributes` | `attributes.dfy` | the `TransactionSupportAttribute` descriptor |
| `Trace` | `trace.dfy` | choosing the path from the attribute array |
| `PoolList` | `pool_list.dfy` | the pool's list: first-match lookup and `List.Remove` of the found pair |
| `StepCounting` | `step_counting.dfy` | the commit guard and how many commits a run of steps makes |
| `Transactions` | `transactions.dfy` | classes `Connection` (an idempotent Open/Closed shim), `Transaction` and `TransactionPool` |
| `Readers` | `readers.dfy` | `DataReader.Close` |
| `Commands` | `commands.dfy` | the execution engine of `Command` |
| `Scenarios` | `scenarios.dfy` | whole client runs as `DataAccess` drives them, one fresh `Command` per operation |

How the model is built:

- The pool is one `TransactionPool` object. Every command and transaction refers to it,
  and it stands for the static `Instances` list.
- The database driver is an input to each call:
  - `NativeOutcome`: returns a value, a reader or null, or throws;
  - `ReaderOutcome`: the reader call opens a reader or throws;
  - `FillOutcome`: an adapter fill returns a row count or throws.
- Native commits and rollbacks are counted in `Transaction.commits` and
  `Transaction.rollbacks`.
- `Connection.begun` numbers the native transactions, so each handle is identified by its
  serial number.
- The ghost output `openAtRun` records whether the connection was open when the native
  command ran.

Behaviours of the code that the model keeps as written:

- **No atomic insert-if-absent.** `BeginTransaction` does a plain `GetObject` and then
  `Add` (Command.cs:194-197), with no lock. The model is sequential.
- **A standalone failure can roll back a held transaction.** The standalone catch block
  also calls `OnError` (Command.cs:142-145). `OnError` rolls back a running transaction
  that the same `Command` object holds from an earlier call, then clears the field
  (`StandaloneEffect`). `DataAccess` gives every operation a fresh `Command`
  (DataAccess.cs:80-84), so in practice nothing is held.
- **On the transactional path an earlier held transaction is only overwritten.**
  `BeginTransaction` assigns `_transaction` (Command.cs:194) and never touches the
  transaction it held before, unless that is the one it joins (`EarlierHeldKept`).
- **A standalone reader leaves the connection open.** The standalone path skips the close
  for a reader result (Command.cs:137-140). `DataReader.Close` with no transaction only
  closes the native reader (DataReader.cs:38-46), so the connection stays open
  (`Scenarios.StandaloneReader`).
- **A failing standalone step leaves the connection open.** The close sits inside the
  `try` after the native call (Command.cs:135-141), so an exception skips it, and the
  catch block only calls `OnError` (Command.cs:142-145) (`StandaloneEffect`).
- **With `Tasks == 0`:**
  - the entry is pooled but never begun (Command.cs:201) and never committed
    (Transaction.cs:81);
  - the command runs on the connection as it is, which may be closed;
  - the entry is never removed. A successful step does not commit. A failing step does
    not roll back either, because `OnError` rolls back only a running transaction
    (Command.cs:216), and a transaction that was never begun is not running
    (`Scenarios.ZeroTasks`, `StepCounting.NoTasksNeverCommit`).
- **No committed or rolled-back state.** `Transaction` keeps only its step counter, the
  running flag and the handle (Transaction.cs:31-35). The model has those plus counters of
  native commits and rollbacks.
- **`RunningStep` keeps counting.** It can exceed `Tasks`, for example when callers
  disagree about `Tasks`. Later steps never commit (`StepCounting.CommitsAtMostOnce`).
- **The first caller's attributes win.** Only the first caller's attribute array is
  stored on a new transaction (Command.cs:199), and later callers joining the key do not
  change it (`Scenarios.DisagreeingTasks`).

## Model

| member | source | states |
|---|---|---|
| PoolList.FirstIndex | OpenWebby.Data/Common/TransactionPool.cs:39-42 | the position found is the first whose key matches: no earlier entry has the key; it equals the length exactly when no entry has the key |
| PoolList.Find | OpenWebby.Data/Common/TransactionPool.cs:39-42 | `Instances.Find`: None (the default pair, null Value) iff no entry has the key; otherwise an entry of the list with that key that no earlier entry's key matches |
| PoolList.IndexOf | OpenWebby.Data/Common/TransactionPool.cs:50 | `List.Remove` locates the first element equal to the item: no earlier element equals it, and it is absent iff the position is the length |
| PoolList.RemoveFirstOccurrence | OpenWebby.Data/Common/TransactionPool.cs:50 | `List.Remove(item)` leaves the list unchanged when the item is absent; otherwise it deletes exactly the element at the first position equal to the item and keeps the others in order |
| PoolList.RemoveKey | OpenWebby.Data/Common/TransactionPool.cs:48-51 | removing by key deletes exactly the first entry with that key and keeps all others in order; a missing key leaves the list unchanged |
| PoolList.RemoveKeyKeepsDistinct | OpenWebby.Data/Common/TransactionPool.cs:39-51 | with distinct keys, after `Remove(key)` the keys stay distinct and `GetObject(key)` finds nothing |
| PoolList.RemoveKeyOnlyDrops | OpenWebby.Data/Common/TransactionPool.cs:48-51 | every entry left after removal was in the list before |
| PoolList.RemoveKeyTwice | OpenWebby.Data/Common/TransactionPool.cs:48-51 | with distinct keys, removing a key twice is the same as removing it once |
| PoolList.RemoveKeyKeepsOtherLookups | OpenWebby.Data/Common/TransactionPool.cs:39-51 | removing one key does not change what `GetObject` finds for any other key |
| PoolList.AppendUnseen | OpenWebby.Data/Common/Command.cs:194-198 | appending under an unseen key: the following lookup finds the appended pair, keys stay distinct, and removing the key restores the list |
| Attributes.Declare | OpenWebby.Data/Attributes/TransactionSupportAttribute.cs:33-48 | the two-argument attribute keeps key and tasks, with `InTransaction` true, isolation Unspecified and no description |
| Trace.GetCustomAttribute | OpenWebby.Data/Common/Trace.cs:34-38 | a null stack trace gives a null array; otherwise the caller's declared attributes |
| Trace.HasAttribute | OpenWebby.Data/Common/Trace.cs:45-48 | true iff the array is non-null, even when empty |
| Trace.IsTrasactionSupport | OpenWebby.Data/Common/Trace.cs:55-62 | false for a null or empty array; true only for a non-empty array |
| Trace.FirstAttributeDecides | OpenWebby.Data/Common/Trace.cs:59 | for a non-empty array the result is the first element's `InTransaction`; later elements are ignored |
| Trace.DeclaredAttributeIsTransactional | OpenWebby.Data/Attributes/TransactionSupportAttribute.cs:33 | a single attribute that leaves `InTransaction` at its default selects the transactional path |
| Trace.NullStackIsStandalone | OpenWebby.Data/Common/Trace.cs:36 | a null stack trace selects the standalone path |
| StepCounting.CommitFires | OpenWebby.Data/Common/Transaction.cs:81-84 | the commit guard holds iff `Tasks > 0`, the counted step equals `Tasks`, and a handle exists; the `RunningStep != 0` test is redundant |
| StepCounting.CommitsAtMostOnce | OpenWebby.Data/Common/Transaction.cs:77-95 | k calls of Commit from step `start` commit once if they pass step `Tasks` (with `Tasks > 0` and a handle) and never otherwise |
| StepCounting.SharedTransactionCommitsOnce | OpenWebby.Data/Common/Transaction.cs:77-95 | for n > 0 tasks, the first n-1 steps do not commit, the n-th commits, and later steps add no commit |
| StepCounting.NoTasksNeverCommit | OpenWebby.Data/Common/Transaction.cs:81 | with `Tasks <= 0` no number of Commit calls ever commits |
| StepCounting.UnbegunNeverCommits | OpenWebby.Data/Common/Transaction.cs:84 | a transaction without a native handle never commits |
| Transactions.Connection.Open | OpenWebby.Data/Common/Connection.cs:86-92 | the connection ends open, whatever its state before |
| Transactions.Connection.Close | OpenWebby.Data/Common/Connection.cs:51-57 | the connection ends closed, whatever its state before |
| Transactions.Connection.BeginTransaction | OpenWebby.Data/Common/Connection.cs:36-39 | the driver hands out a new native handle with the requested isolation; the state is unchanged |
| Transactions.Transaction.constructor | OpenWebby.Data/Common/Transaction.cs:31-60 | a fresh transaction has step 0, is not running and has no native handle |
| Transactions.Transaction.Begin | OpenWebby.Data/Common/Transaction.cs:62-75 | sets the running flag, opens the connection when it is not open, and stores and returns the new native handle; the step count is unchanged |
| Transactions.Transaction.Commit | OpenWebby.Data/Common/Transaction.cs:77-95 | counts exactly one step; commits natively iff the guard holds for the new count, in which case the connection ends closed and the key is removed from the pool; otherwise only the counter changes; the pool invariant is kept |
| Transactions.Transaction.Rollback | OpenWebby.Data/Common/Transaction.cs:97-107 | needs the native handle; rolls back once, leaves the connection closed and removes the key from the pool; the step count is unchanged |
| Transactions.Transaction.Dispose | OpenWebby.Data/Common/Transaction.cs:109-112 | removes the pool entry under the first attribute's key |
| Transactions.TransactionPool.constructor | OpenWebby.Data/Common/TransactionPool.cs:32 | the pool starts as an empty list |
| Transactions.TransactionPool.GetObject | OpenWebby.Data/Common/TransactionPool.cs:39-42 | `Instances.Find`: None (the default pair, whose Value is null) iff no pair has the key; otherwise a pair of the list under that key |
| Transactions.TransactionPool.GetObjectFindsFirst | OpenWebby.Data/Common/TransactionPool.cs:41 | the pair found is the one at the first position holding the key |
| Transactions.TransactionPool.Add | OpenWebby.Data/Common/Command.cs:197 | appends the pair at the end of the list |
| Transactions.TransactionPool.Remove | OpenWebby.Data/Common/TransactionPool.cs:48-51 | the list becomes the one with the first entry for the key removed; with distinct keys the key is gone afterwards; the pool invariant is kept |
| Transactions.TransactionPool.AppendKeepsValid | OpenWebby.Data/Common/Command.cs:197-199 | appending a consistent transaction under its own unseen key keeps the pool's invariant |
| Transactions.TransactionPool.RemovalKeepsValid | OpenWebby.Data/Common/TransactionPool.cs:48-51 | removing a key, with the pooled transactions untouched, keeps the pool's invariant |
| Readers.DataReader.constructor | OpenWebby.Data/Common/DataReader.cs:32-36 | the reader wraps the native reader and the transaction it was given (null on the standalone path) |
| Readers.DataReader.Close | OpenWebby.Data/Common/DataReader.cs:38-46 | closes the native reader; with a transaction, counts exactly one step on it (which may commit); with none, nothing else changes: no pool change and no connection close |
| Commands.IsDbDataReaderOpen | OpenWebby.Data/Common/Command.cs:222-225 | a null or scalar result is never an open reader; a reader result always is |
| Commands.Command.constructor | OpenWebby.Data/Common/Command.cs:49-56 | the command keeps the connection and stack trace it was given and holds no transaction |
| Commands.Command.Create | OpenWebby.Data/Common/Command.cs:49-56 | a null connection is rejected first, then a null stack trace; otherwise a command holding both and no transaction |
| Commands.Command.BuildCommand | OpenWebby.Data/Common/Command.cs:90-105 | a new command with the text and command type, every parameter of the collection appended in order (none for a null collection), and no transaction attached |
| Commands.Command.BeginTransaction | OpenWebby.Data/Common/Command.cs:190-210 | a pooled key is reused: no entry added, Begin not called, and the command gets that entry's handle; an unseen key gets exactly one new entry (see AddTransaction) |
| Commands.Command.AddTransaction | OpenWebby.Data/Common/Command.cs:195-205 | one new transaction, holding this caller's attributes, is appended under the key; it is begun and its handle attached iff `Tasks > 0` |
| Commands.Command.InitTransaction | OpenWebby.Data/Common/Command.cs:199-204 | the new transaction stores the attributes; iff `Tasks > 0` it is begun, the handle attached and the connection opened; otherwise nothing else changes |
| Commands.Command.OnError | OpenWebby.Data/Common/Command.cs:212-220 | a held running transaction is rolled back (removing its key); the field is cleared; the same exception is rethrown |
| Commands.Command.Conclude | OpenWebby.Data/Common/Command.cs:119-129 | after the native call: the step is counted unless the result is an open reader; a failure goes to the error handler |
| Commands.Command.JoinAndRun | OpenWebby.Data/Common/Command.cs:117-129 | a step under a pooled key runs with that entry's handle, adds no entry and begins nothing, then concludes on that transaction |
| Commands.Command.CreateAndRun | OpenWebby.Data/Common/Command.cs:117-129 | a step under an unseen key creates, pools and (iff `Tasks > 0`) begins a transaction, then concludes on it; when the step fails and `Tasks > 0`, the new transaction (named by the ghost result `ran`) is rolled back natively once, never committed and its step not counted, the key is not pooled and the connection is closed; when the step fails and `Tasks <= 0`, the new transaction stays pooled with the caller's attributes, not running, with no handle and no commit or rollback counted, and the connection keeps its state |
| Commands.Command.CreateAndConclude | OpenWebby.Data/Common/Command.cs:119-129 | the part of CreateAndRun after the command is built: the same `Created` effect, including the native rollback of a failing first step under `Tasks > 0`; the built command keeps its text, type and parameters |
| Commands.Command.RunInTransaction | OpenWebby.Data/Common/Command.cs:115-130 | the transactional path: the joined or created effect, depending on whether the key was pooled, with `ran` the transaction the step ran in; only the joined transaction and its connection can change, never a transaction held from an earlier call |
| Commands.Command.RunStandalone | OpenWebby.Data/Common/Command.cs:131-146 | the connection is open when the command runs; on success it is closed afterwards unless the result is an open reader, and a failing step leaves it open; the pool is untouched and no handle is attached |
| Commands.Command.Execute | OpenWebby.Data/Common/Command.cs:107-149 | the driver's result is passed through and its exception rethrown; the built command is issued; the path follows `IsTrasactionSupport`; on the transactional path the joined or created effect holds for `ran`, the transaction the step ran in (so a failing first step under `Tasks > 0` rolls its new transaction back natively), and a transaction held from an earlier call stays as it was unless it is the one joined; the pool invariant is kept |
| Commands.Command.ExecuteAdapter | OpenWebby.Data/Common/Command.cs:151-188 | the fill's row count or exception is passed through; the built command becomes the adapter's select command; a successful step is always finished: counted in a transaction, or the connection closed when standalone; as in Execute, a failing first fill under `Tasks > 0` rolls its new transaction back, and an earlier held transaction is untouched on the transactional path |
| Commands.Command.ExecuteReader | OpenWebby.Data/Common/Command.cs:69-72 | on success a new reader wraps the native reader and the transaction the command holds after the call; the step stays pending; a failure is rethrown; as in Execute, a failing first call under `Tasks > 0` rolls its new transaction back, and an earlier held transaction is untouched on the transactional path |
| Scenarios.FirstStep | OpenWebby.Data/Common/Command.cs:194-205 | the first step under an unseen key with n > 0 tasks pools, begins and counts a new transaction; with one task it commits and removes it at once |
| Scenarios.NextStep | OpenWebby.Data/Common/Command.cs:206-209 | a later step joins the pooled transaction and commits, closes and removes the key exactly when it is step n |
| Scenarios.SharedRun | OpenWebby.Data/Common/Command.cs:115-124 | n successful non-reader steps on one key give exactly one native commit, one begin, the key back out of the pool and the connection closed |
| Scenarios.StandaloneReader | OpenWebby.Data/Common/DataReader.cs:38-46 | a standalone reader's close leaves the connection open and the pool unchanged |
| Scenarios.OpenSharedReader | OpenWebby.Data/Common/Command.cs:69-72 | a transactional reader call pools and begins the transaction and leaves the step pending on the reader |
| Scenarios.SharedReader | OpenWebby.Data/Common/DataReader.cs:42-45 | closing the reader that completes the only declared step commits, closes the connection and removes the key |
| Scenarios.FailingStep | OpenWebby.Data/Common/Command.cs:126-129 | a failing step in a running shared transaction rethrows the error, rolls back once, closes the connection and removes the key |
| Scenarios.FailingFirstStep | OpenWebby.Data/Common/Command.cs:199-220 | a failing first step under an unseen key with n > 0 tasks rethrows the error after one native rollback of the transaction it began; nothing is committed, the key is not pooled afterwards and the connection is closed |
| Scenarios.FailureRestarts | OpenWebby.Data/Common/Command.cs:212-220 | after a rollback the key is free, and the next step starts a new transaction on a new native handle |
| Scenarios.DisagreeingTasks | OpenWebby.Data/Common/Command.cs:199 | a second caller declaring a different task count joins the key; the first caller's attributes stay stored and govern the commit |
| Scenarios.JoinIdle | OpenWebby.Data/Common/Command.cs:206-220 | a step joining a pooled transaction that was never begun (`Tasks == 0`) passes the result or rethrows the error; a success is counted without committing, a failure rolls nothing back; pool and connection stay as they were |
| Scenarios.ZeroTasks | OpenWebby.Data/Common/Command.cs:201 | with `Tasks == 0`, steps on a closed connection, the two successful ones and the failing one, run on it closed; nothing is begun, committed or rolled back; the key stays pooled after successful and after failing steps, and the failure is rethrown |

## Left out

- Reflection: `Trace.GetCustomAttribute` walks stack frames (Trace.cs:37) and `DataAccess`
  creates `new StackTrace()`. Instead, the caller's attribute array is carried as data in
  `StackTrace`.
- Concurrency: the static list has no lock. The model covers sequential calls only.
- Native driver behaviour: command execution, `Fill`, native commit and rollback. These
  are outcome inputs or counters. Failures of `Open`, `BeginTransaction`, native `Commit`
  and native `Rollback` are not modelled, so exceptions come only from the command or fill
  itself. In the source, a `Rollback` that throws inside `OnError` (Command.cs:216)
  replaces the original exception, because `throw ex` (Command.cs:219) is never reached.
  The model does not capture this.
- `IsDbDataReaderOpen`: the run-time type test (Command.cs:224) is replaced by a
  result-kind tag (`Output.Reader`).
- Commands.Command.ExecuteAdapter: the adapter's select command is set after the step in
  the model, not before as in the source (Command.cs:156). In the source, `Fill`
  (Command.cs:165, 178) runs that select command, including the native transaction
  attached to it at Command.cs:203 or 208. In the model the fill is an opaque outcome
  input, so the late write changes nothing the model computes. The model does not
  capture that the fill runs on the attached handle.
- The `ExecuteNonQuery`, `ExecuteScalar`, `ExecuteDataTable` and `ExecuteDataSet`
  wrappers (Command.cs:58-88, DataAccess.cs:48-78) only pass a delegate to `Execute` or
  `ExecuteAdapter`, which are modelled. The `DataTable`/`DataSet` containers are not
  modelled.
- The forwarding members of `DataReader` (DataReader.cs:48-206) change no state and are
  not modelled. `NativeReader` has only its closed flag.
- `ParameterFactory` is an input sequence of `Parameter` values.
- `ICommand` is an interface declaration only.
- Provider-factory creation in `DataAccess` is not modelled.
- Null keys and null attribute elements are not modelled: keys are strings.
- A `Transaction` with a null connection is not modelled, and neither is `Begin`'s null
  check (Transaction.cs:65). The `Command` constructor rejects a null connection.
- The cast to the wrapper `Connection` is not modelled. `new Transaction((Connection)Connection)`
  at Command.cs:197 casts the `IDbConnection` that the public constructor accepts
  (Command.cs:49). A `Command` built over a plain provider connection therefore throws
  `InvalidCastException` on its first transactional step under an unseen key, before
  anything is pooled, and `OnError` rethrows it. The model types the command's
  connection as the wrapper, so this exception path is absent.
- Transactions.Transaction.Commit: `RunningStep` is a 32-bit `int` in the source. The
  model counts with an unbounded integer, so wrap-around after 2^31 - 1 steps is not
  modelled.
- A reader that is never closed leaves its step pending and its entry pooled
  indefinitely. The model states this (`OpenSharedReader`) but adds no detection.
- Callers that disagree about `Tasks`: the first caller's count governs
  (`Scenarios.DisagreeingTasks`). No detection is modelled.
- Commands.Command.RunInTransaction, JoinAndRun, CreateAndRun, CreateAndConclude,
  Conclude and RunStandalone are parts of `Execute`'s one method body in the source. They are separate
  methods only so that each is verified on its own. For the same reason each branch
  builds the command itself, as its first statement, where the source builds it once
  just before the branch (Command.cs:111); building only creates the new command, so
  the order of effects is the same.
