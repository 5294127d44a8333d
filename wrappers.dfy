/** Option and Result, used for Python's None and for raised exceptions. */
module Wrappers {

  datatype Option<+T> = None | Some(value: T)

  /** A computation that either returns a value or raises an error carrying a message. */
  datatype Result<+R, +E> = Success(value: R) | Failure(error: E)
}
