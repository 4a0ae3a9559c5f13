/** Failure-carrying results, standing in for the exceptions the model can raise. */
module Wrappers {

  /** Either a value or the error that was raised instead of producing it. */
  datatype Result<+T, +E> = Success(value: T) | Failure(error: E)

  /** A step that produces nothing but may fail. */
  datatype Outcome<+E> = Pass | Fail(error: E)
}
