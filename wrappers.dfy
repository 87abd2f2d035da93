/** Option and Result, the failure-carrying values used across the model. */
module Wrappers {

  datatype Option<+T> = None | Some(value: T)

  /** Success or the name of the exception the source would raise. */
  datatype Result<+R> = Success(value: R) | Failure(error: string)
}
