/** Failure-carrying datatypes shared by the rest of the model. */
module Wrappers {

  /** A value that may be missing. */
  datatype Option<+T> = None | Some(value: T)

  /** The outcome of an operation that has no result value but may fail. */
  datatype Outcome<+E> = Pass | Fail(error: E)

  /** The result of an operation that either yields a value or fails. */
  datatype Result<+R, +E> = Success(value: R) | Failure(error: E)
}
