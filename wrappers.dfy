/** Option and Result, the failure-aware return types used by every stage. */
module Wrappers {

  datatype Option<+T> = None | Some(value: T)

  /** A stage either yields its value or the exception it raised. */
  datatype Result<+R, +E> = Success(value: R) | Failure(error: E)
}
