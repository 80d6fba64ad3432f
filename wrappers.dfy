/** Failure-carrying results used across the model. */
module Wrappers {

  /** A value that may be undefined; `None` stands for a not-a-number outcome. */
  datatype Option<+T> = None | Some(value: T)

  /** A value or an error message, for the argument validators. */
  datatype Result<+R, +E> = Success(value: R) | Failure(error: E)
}
