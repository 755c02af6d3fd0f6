/** Option and Result: the failure-carrying values that the handlers return. */
module Wrappers {

  datatype Option<+T> = None | Some(value: T)

  /** The outcome of an entry point: a value, or the error that aborted it. */
  datatype Result<+T, +E> = Ok(value: T) | Err(error: E) {
    predicate IsFailure() { Err? }

    function PropagateFailure<U>(): Result<U, E>
      requires Err?
    {
      Err(error)
    }

    function Extract(): T
      requires Ok?
    {
      value
    }
  }
}
