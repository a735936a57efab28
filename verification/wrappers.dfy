/** Failure-carrying datatypes shared by the other modules. */
module Wrappers {

  /** A value that may be absent: an unset environment variable, a missing key. */
  datatype Option<+T> = None | Some(value: T)

  /** Either a normal return value or a raised exception. */
  datatype Result<+T, +E> = Ok(value: T) | Err(error: E)
}
