/** Option and Result, the two failure-carrying datatypes the model uses. */
module Wrappers {

  datatype Option<+T> = None | Some(value: T)

  /** A Go `(value, error)` pair, or a Go panic, as one value. */
  datatype Result<+R, +E> = Success(value: R) | Failure(error: E)
}
