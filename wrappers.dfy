/** Option and Result, the failure-carrying values used across the model. */
module Wrappers {

  datatype Option<+T> = None | Some(value: T)

  /** A value or the exception the Python code would raise instead of returning it. */
  datatype Result<+T, +E> = Success(value: T) | Failure(error: E)
}
