/** Failure-carrying result types shared by the whole model. */
module Wrappers {

  /** A value that may be absent, like Python's `None`. */
  datatype Option<+T> = None | Some(value: T)

  /** Either a value or the error that an exception would carry. */
  datatype Result<+T, +E> = Success(value: T) | Failure(error: E)
}
