/** Optional values and pass/fail outcomes, standing for Python's `None` and for a raised exception. */
module Wrappers {

  datatype Option<+T> = None | Some(value: T)

  /** The outcome of a Python validator that either returns or raises `ValueError(message)`. */
  datatype Outcome = Pass | Fail(message: string)

  /** A query that either returns a value or raises (the raised error carries a message). */
  datatype Result<+T> = Ok(value: T) | Err(message: string)
}
