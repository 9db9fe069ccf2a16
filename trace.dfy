/**
 * Selection of the execution path from the caller's declared attributes
 * (OpenWebby.Data/Common/Trace.cs). A C# array that may be null is an
 * `Option<seq<TransactionSupport>>`.
 */
module Trace {
  import opened Wrappers
  import opened Attributes

  /**
   * A captured call stack. The reflective walk to the caller's frame is not modelled:
   * the attributes declared on that caller are carried as data.
   */
  datatype StackTrace = StackTrace(callerAttributes: seq<TransactionSupport>)

  /** The attributes of the calling method; no attributes at all (null) for a null stack. */
  function GetCustomAttribute(stack: Option<StackTrace>): (r: Option<seq<TransactionSupport>>)
    ensures stack.None? ==> r.None?
    ensures stack.Some? ==> r == Some(stack.value.callerAttributes)
  {
    match stack
    case None => None
    case Some(s) => Some(s.callerAttributes)
  }

  /** An attribute array "has attributes" exactly when it is not null, even when it is empty. */
  function HasAttribute(attributes: Option<seq<TransactionSupport>>): (r: bool)
    ensures r <==> attributes.Some?
  {
    attributes != None
  }

  /**
   * Whether an operation runs inside the shared transaction (the source spells the name
   * `IsTrasactionSupport`): only the first attribute of a non-empty array is consulted.
   */
  function IsTrasactionSupport(attributes: Option<seq<TransactionSupport>>): (r: bool)
    ensures r ==> HasAttribute(attributes) && |attributes.value| > 0
    ensures attributes == None || attributes == Some([]) ==> !r
  {
    if HasAttribute(attributes) then
      if |attributes.value| > 0 then attributes.value[0].inTransaction else false
    else
      false
  }

  /** Only the first element decides; whatever follows it is ignored. */
  lemma FirstAttributeDecides(first: TransactionSupport, rest: seq<TransactionSupport>)
    ensures IsTrasactionSupport(Some([first] + rest)) == first.inTransaction
  {
  }

  /** A single attribute that leaves `InTransaction` at its default selects the transactional path. */
  lemma DeclaredAttributeIsTransactional(key: string, tasks: int)
    ensures IsTrasactionSupport(Some([Declare(key, tasks)]))
  {
  }

  /** A null stack trace yields no attributes, hence the standalone path. */
  lemma NullStackIsStandalone()
    ensures !IsTrasactionSupport(GetCustomAttribute(None))
  {
  }
}
