/** Failure-carrying datatypes used by the model: `Option` for an absent value,
    `Result` for an operation that either yields a value or throws, and
    `Outcome` for an action that either completes or throws. */
module Wrappers {

  datatype Option<+T> = None | Some(value: T)

  datatype Result<+R, +E> = Success(value: R) | Failure(error: E)

  datatype Outcome<+E> = Pass | Fail(error: E)
}
