/** Option and Result, the failure-carrying values the rest of the model returns. */
module Wrappers {

  datatype Option<+T> = None | Some(value: T)

  /** A call that either produces a value or fails with an error message, like a
      function that returns normally or throws an `Error` in the source. */
  datatype Result<+T> = Ok(value: T) | Err(message: string)
}
