/** Option and Result values for the places where the scripts see `None` or an exception. */
module Wrappers {

  /** A value that may be absent, as `os.getenv` returns `None` for an unset variable. */
  datatype Option<+T> = None | Some(value: T)

  /** The outcome of a call that either returns a value or raises an exception. */
  datatype Result<+R, +E> = Ok(value: R) | Err(error: E)
}
