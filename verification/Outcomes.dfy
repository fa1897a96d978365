/** Optional values and error returns, as the Go code's `(value, ok)` and `(value, error)` pairs. */
module Outcomes {
  datatype Option<+T> = None | Some(value: T)

  datatype Result<+T, +E> = Success(value: T) | Failure(error: E)
}
