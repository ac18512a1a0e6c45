/** Failure-carrying return types used throughout the model. */
module Wrappers {

  /** An optional value: Go's nil-or-pointer for handles and records. */
  datatype Option<+T> = None | Some(value: T)

  /** A value or an error: Go's `(T, error)` return pair. */
  datatype Result<+T, +E> = Success(value: T) | Failure(error: E)
}
