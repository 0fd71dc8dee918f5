/** Success/failure values standing for the source's thrown errors and undefined values. */
module Wrappers {

  datatype Option<+T> = None | Some(value: T)

  /** The value of an operation that either returns a value or throws an error message. */
  datatype Result<+R> = Success(value: R) | Failure(error: string)

  /** The outcome of an operation that returns nothing or throws an error message. */
  datatype Outcome = Pass | Fail(error: string)
}
