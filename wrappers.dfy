/** Failure-carrying result types: the source signals failure by throwing,
    which the model turns into values. */
module Wrappers {

  datatype Option<+T> = None | Some(value: T)

  /** The outcome of a step that returns nothing on success. */
  datatype Outcome<+E> = Pass | Fail(error: E)

  datatype Result<+R, +E> = Success(value: R) | Failure(error: E)
}
