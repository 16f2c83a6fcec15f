/** Option and Result values used for the source's `None`, missing keys and raised exceptions. */
module Outcomes {

  /** A value that may be absent. */
  datatype Option<+T> = None | Some(value: T)

  /** The outcome of a call that either returns a value or raises; `error` is the exception's text. */
  datatype Result<+T> = Ok(value: T) | Err(error: string)
}
