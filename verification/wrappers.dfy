/** Failure-carrying datatypes shared by the model. */
module Wrappers {

  /** A value that may be missing; stands for Ruby's `nil` where an object is expected. */
  datatype Option<+T> = None | Some(value: T)

  /** The outcome of a step that either produces a value or raises an error. */
  datatype Result<+R, +E> = Success(value: R) | Failure(error: E)
}
