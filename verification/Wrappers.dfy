// The two result shapes the modules share.
module Wrappers {

  /** A value that Go would hold behind a pointer that may be nil. */
  datatype Option<+T> = None | Some(value: T)

  /** A value, or the error that was returned (Go) or thrown (Java) instead of it. */
  datatype Result<+T, +E> = Ok(value: T) | Err(error: E)
}
