/** How a piece of the helper can end. */
module Execution {

  /** Why the helper raised, as far as its callers can tell the cases apart. */
  datatype Cause = BadRequest | StateUnreadable | StateUnwritable | StartFailed | WorkerFailure

  /** Returned normally, raised an exception, or the helper process was killed on the way. */
  datatype Exec<+T> = Returned(value: T) | Raised(cause: Cause) | Killed {
    predicate IsFailure() {
      !Returned?
    }

    function PropagateFailure<U>(): Exec<U>
      requires IsFailure()
    {
      if Raised? then Exec<U>.Raised(cause) else Exec<U>.Killed
    }

    function Extract(): T
      requires Returned?
    {
      value
    }
  }
}
