/** Option and Result, used for Go's `(value, error)` pairs and nil-able errors. */
module Wrappers {

  datatype Option<+T> = None | Some(value: T)

  datatype Result<+R, +E> = Success(value: R) | Failure(error: E)
}
