/** Option and Result, the two failure-carrying datatypes the model uses. */
module Wrappers {

  /** A value that may be absent (Python's `Optional[...]`, with `None`). */
  datatype Option<+T> = None | Some(value: T)

  /** A value or the error that stopped it from being built. */
  datatype Result<+R, +E> = Success(value: R) | Failure(error: E)
}
