/** Option and Result, the two failure-carrying wrappers the other modules share. */
module Wrappers {

  datatype Option<+T> = None | Some(value: T)

  /** The outcome of an operation that can fail: a value, or an error message. */
  datatype Result<+T> = Ok(value: T) | Err(message: string)
}
