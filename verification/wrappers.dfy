/** Failure-compatible result types used across the model. */
module Wrappers {

  datatype Option<+T> = None | Some(value: T)

  /** The value of an operation, or the error the source raises instead. */
  datatype Result<+T, +E> = Ok(value: T) | Err(error: E) {

    predicate IsFailure() {
      Err?
    }

    function PropagateFailure<U>(): Result<U, E>
      requires Err?
    {
      Err(error)
    }

    function Extract(): T
      requires Ok?
    {
      value
    }
  }
}
