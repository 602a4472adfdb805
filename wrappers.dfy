/** Option and Result, the failure-carrying values used across the model. */
module Wrappers {

  /** A value that may be absent: Python's `None`, a missing argument. */
  datatype Option<+T> = None | Some(value: T)

  /** Either a value or the error that the source raises instead. */
  datatype Result<+T, +E> = Success(value: T) | Failure(error: E)
}
