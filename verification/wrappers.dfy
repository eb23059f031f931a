/** Option and Result, the absence and error values returned by the model. */
module Wrappers {

  datatype Option<+T> = None | Some(value: T)

  /** A result or the error the source raises instead of returning. */
  datatype Result<+T, +E> = Ok(value: T) | Err(error: E) {
    predicate IsFailure() { Err? }

    function PropagateFailure<U>(): Result<U, E>
      requires Err?
    {
      Err(error)
    }

    function Extract(): T
      requires Ok?
    {
      value
    }
  }
}
