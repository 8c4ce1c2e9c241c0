/** Option, Result and Outcome values for Python's None and raised exceptions. */
module Wrappers {

  /** A value that may be Python's None. */
  datatype Option<+T> = None | Some(value: T)

  /** The value of a call that either returns or raises. */
  datatype Result<+R, +E> = Ok(value: R) | Err(error: E)

  /** The outcome of a call that returns nothing or raises. */
  datatype Outcome<+E> = Pass | Fail(error: E)
}
