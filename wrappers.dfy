/** Option and Result values used for the source's (value, error) and (value, ok) returns. */
module Wrappers {

  datatype Option<+T> = None | Some(value: T)

  /** A Go `(T, error)` pair: `Err` carries the error text. */
  datatype Result<+T> = Ok(value: T) | Err(message: string)

  /** A Go `error` return with no value. */
  datatype Outcome = Pass | Fail(message: string)
}
