/** The `Option`, `Result` and `Outcome` datatypes shared by the other modules. */
module Wrappers {

  datatype Option<+T> = None | Some(value: T)

  datatype Result<+R, +E> = Success(value: R) | Failure(error: E)

  /** What an asynchronous step reports to its continuation: nothing, or an error. */
  datatype Outcome = Pass | Fail(message: string)
}
