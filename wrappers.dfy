/** The optional value used throughout the model for JavaScript's `null` / `undefined`. */
module Wrappers {

  datatype Option<+T> = None | Some(value: T)

  /** Either a value or the message of the check that rejected it. */
  datatype Result<+R> = Ok(value: R) | Err(message: string)
}
