/** Result types for the errors the transformer throws. */
module Wrappers {

  datatype Option<+T> = None | Some(value: T)

  /** A value, or the error that the source reports by throwing. */
  datatype Result<+T, +E> = Success(value: T) | Failure(error: E)

  /** Success without a value, or the error that the source reports by throwing. */
  datatype Outcome<+E> = Pass | Fail(error: E)
}
