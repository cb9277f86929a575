/** Option and Result, the two failure-carrying shapes used throughout the model. */
module Wrappers {

  datatype Option<+T> = None | Some(value: T)

  /** A computation that either produced a value or raised an error. */
  datatype Result<+R, +E> = Success(value: R) | Failure(error: E)
}
