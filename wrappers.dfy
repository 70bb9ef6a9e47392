/** Option, Result and Outcome: the failure-carrying values the model uses in
    place of JavaScript's `null`, thrown exceptions and rethrown errors. */
module Wrappers {

  datatype Option<+T> = None | Some(value: T)

  datatype Result<+R, +E> = Success(value: R) | Failure(error: E)

  /** The outcome of an operation that returns nothing or throws. */
  datatype Outcome<+E> = Pass | Fail(error: E)
}
