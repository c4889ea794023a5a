/** The optional and failure-carrying results used across the model. */
module Wrappers {

  /** A value that may be absent: the model of a JavaScript `undefined` result. */
  datatype Option<+T> = None | Some(value: T)

  /** Either a value or the error that a JavaScript `throw` would have raised. */
  datatype Result<+R, +E> = Success(value: R) | Failure(error: E)

  function Min(a: int, b: int): (m: int)
  {
    if a <= b then a else b
  }
}
