/**
 * The call-site declaration `TransactionSupportAttribute`
 * (OpenWebby.Data/Attributes/TransactionSupportAttribute.cs): an inert descriptor.
 */
module Attributes {
  import opened Wrappers

  /** System.Data.IsolationLevel. */
  datatype IsolationLevel =
    | Unspecified | Chaos | ReadUncommitted | ReadCommitted | RepeatableRead | Serializable | Snapshot

  /**
   * One declared attribute: the transaction key, the number of tasks (steps) that share
   * it, the opt-out flag, the isolation requested when the transaction is begun, and
   * a free-text description. `tasks` is a C# int and may be zero or negative.
   */
  datatype TransactionSupport = TransactionSupport(
    key: string,
    tasks: int,
    inTransaction: bool,
    isolation: IsolationLevel,
    description: Option<string>)

  /** `new TransactionSupportAttribute(key, tasks)` with every optional property left at its default. */
  function Declare(key: string, tasks: int): (a: TransactionSupport)
    ensures a.key == key && a.tasks == tasks
    ensures a.inTransaction
    ensures a.isolation == Unspecified && a.description == None
  {
    TransactionSupport(key, tasks, true, Unspecified, None)
  }
}
