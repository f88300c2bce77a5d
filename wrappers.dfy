/** Option and Result values for the library calls and error returns of the gateway. */
module Wrappers {

  /** A value that may be missing, such as a `net.IP` that is nil after a failed parse. */
  datatype Option<+T> = None | Some(value: T)

  /** Either a value or an error, the shape of Go's `(value, error)` returns. */
  datatype Result<+R, +E> = Success(value: R) | Failure(error: E)
}
