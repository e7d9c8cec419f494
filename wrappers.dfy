/** Failure-carrying wrappers shared by the other modules. */
module Wrappers {

  /** An optional value: a JavaScript field that may be `null` or missing. */
  datatype Option<+T> = None | Some(value: T)

  /** The outcome of an operation that may throw: `Err` carries the message of the thrown `Error`. */
  datatype Result<+T> = Ok(value: T) | Err(message: string)
}
