/** Failure-compatible wrappers used for Go's `(value, error)` returns. */
module Wrappers {

  /** A value that may be absent: a Go call whose error is non-nil yields None. */
  datatype Option<+T> = None | Some(value: T)

  /** A value or an error message, for Go functions returning `(T, error)`. */
  datatype Result<+R> = Success(value: R) | Failure(error: string)
}
