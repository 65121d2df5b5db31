/** Failure-compatible result type used by every operation of the model. */
module Wrappers {

  /** Either the value an operation produced or the error that aborted it. */
  datatype Result<+T, +E> = Ok(value: T) | Err(error: E) {

    predicate IsFailure() {
      Err?
    }

    function PropagateFailure<U>(): Result<U, E>
      requires Err?
    {
      Err(error)
    }

    function Extract(): T
      requires Ok?
    {
      value
    }

    /** Re-labels the error while keeping a success untouched. */
    function MapFailure<NewE>(relabel: E -> NewE): (r: Result<T, NewE>)
      ensures r.Ok? <==> Ok?
      ensures Ok? ==> r.value == value
      ensures Err? ==> r.error == relabel(error)
    {
      match this
      case Ok(v) => Ok(v)
      case Err(e) => Err(relabel(e))
    }
  }
}
