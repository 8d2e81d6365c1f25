/** Failure-carrying wrappers shared by the model. */
module Wrappers {

  /** A JavaScript value that may be `null`/`undefined` (None) or present. */
  datatype Option<+T> = None | Some(value: T)

  /** A value or the errors that prevented it. */
  datatype Result<+T, +E> = Ok(value: T) | Err(error: E)
}
