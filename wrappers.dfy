/** Option and Result values shared by the modules of this project. */
module Wrappers {

  /** A value that may be absent: `null` in the original program. */
  datatype Option<+T> = None | Some(value: T)

  /** The outcome of a check that either succeeds with a value or fails with an error. */
  datatype Result<+T, +E> = Success(value: T) | Failure(error: E)
}
