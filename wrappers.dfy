/** Failure-carrying results used where the engine throws or may fail to finish. */
module Wrappers {

  datatype Option<+T> = None | Some(value: T)

  /** A value, or the message of the exception the engine would throw. */
  datatype Result<+T> = Success(value: T) | Failure(error: string)

  /** The outcome of an operation that returns nothing but may throw. */
  datatype Outcome = Pass | Fail(error: string)
}
