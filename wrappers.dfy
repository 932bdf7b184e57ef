/** Option and Result, used for JavaScript's `null`/`NaN` and for thrown errors. */
module Wrappers {

  datatype Option<+T> = None | Some(value: T)

  /** The outcome of an operation that may throw; `Failure` carries the error message. */
  datatype Result<+T> = Success(value: T) | Failure(error: string)
}
