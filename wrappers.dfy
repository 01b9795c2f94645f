/** Option and Result, used for absent JSON fields and for raised exceptions. */
module Wrappers {

  datatype Option<+T> = None | Some(value: T)

  /** Success carries a value; Failure carries the message of a raised exception. */
  datatype Result<+R, +E> = Success(value: R) | Failure(error: E)
}
