/** Failure-compatible wrappers used throughout the model: the Rust `Option`,
    `Result` and the `Result<()>` of a check that either passes or fails. */
module Wrappers {

  datatype Option<+T> = None | Some(value: T)

  datatype Result<+R, +E> = Success(value: R) | Failure(error: E) {

    predicate IsFailure() {
      Failure?
    }

    function PropagateFailure<U>(): Result<U, E>
      requires Failure?
    {
      Failure(error)
    }

    function Extract(): R
      requires Success?
    {
      value
    }
  }

  /** The `Result<()>` of an operation that only succeeds or fails. */
  datatype Outcome<+E> = Pass | Fail(error: E)
}
