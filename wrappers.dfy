/** Failure-carrying values used in place of PHP's null returns and exceptions. */
module Wrappers {

  datatype Option<+T> = None | Some(value: T)

  /** A value, or the exception that a PHP call would have thrown instead. */
  datatype Result<+T, +E> = Ok(value: T) | Err(error: E)

  /** The outcome of a PHP `void` call: it returns, or it throws. */
  datatype Outcome<+E> = Pass | Fail(error: E)
}
