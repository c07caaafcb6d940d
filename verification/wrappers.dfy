/** Failure-compatible result types shared by every module of the model. */
module Wrappers {

  /** An optional value: `None` plays the role of Go's nil pointer or "not present". */
  datatype Option<+T> = None | Some(value: T)

  /** A value or an error: the (value, error) pair that Go functions return. */
  datatype Result<+T, +E> = Success(value: T) | Failure(error: E)
}
