/** Option and Result values standing for Go's `(value, error)` returns and nil-able values. */
module Wrappers {

  datatype Option<+T> = None | Some(value: T)

  datatype Result<+R, +E> = Success(value: R) | Failure(error: E)
}
