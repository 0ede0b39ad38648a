/** Option and Result values used where the modelled Python returns None or raises. */
module Wrappers {

  datatype Option<+T> = None | Some(value: T)

  /** Ok carries a normal return value; Err names the exception that escapes. */
  datatype Result<+T, +E> = Ok(value: T) | Err(error: E)
}
