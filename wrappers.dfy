/** Option and Result, the failure-carrying values the model uses in place of
    Python's None and raised exceptions. */
module Wrappers {

  datatype Option<+T> = None | Some(value: T) {
    function GetOr(default: T): T {
      match this
      case Some(v) => v
      case None => default
    }
  }

  /** The outcome of an operation that may raise: Ok with the value, or Err
      naming the exception the source raises. */
  datatype Result<+T, +E> = Ok(value: T) | Err(error: E) {
    predicate IsFailure() {
      Err?
    }

    function PropagateFailure<U>(): Result<U, E>
      requires Err?
    {
      Err(error)
    }

    function Extract(): T
      requires Ok?
    {
      value
    }

    /** The value wrapped in Some, the error kept. */
    function MapSome(): (r: Result<Option<T>, E>)
      ensures r.Ok? <==> Ok?
      ensures Ok? ==> r.value == Some(value)
      ensures Err? ==> r.error == error
    {
      match this
      case Ok(v) => Ok(Some(v))
      case Err(e) => Err(e)
    }
  }
}
