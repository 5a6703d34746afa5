/** Option and Result types standing in for `undefined` returns and thrown errors. */
module Wrappers {

  datatype Option<+T> = None | Some(value: T)

  /** A computation that either produced a value or threw an error with the given message. */
  datatype Result<+T> = Ok(value: T) | Err(message: string)

  /** A statement that either completed or threw an error with the given message. */
  datatype Outcome = Pass | Fail(message: string)
}
