/**
 * Failure-compatible wrappers shared by every module of the model:
 * `Option` for values that may be missing, `Result` for operations that
 * return a value or an error, and `Outcome` for operations that only
 * succeed or fail (a Go function that either returns or panics).
 */
module Wrappers {

  datatype Option<+T> = None | Some(value: T)

  datatype Result<+T, +E> = Success(value: T) | Failure(error: E) {
    predicate IsFailure() {
      Failure?
    }

    function PropagateFailure<U>(): Result<U, E>
      requires Failure?
    {
      Failure(error)
    }

    function Extract(): T
      requires Success?
    {
      value
    }
  }

  datatype Outcome<+E> = Pass | Fail(error: E)
}
