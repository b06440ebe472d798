/** Option and Result, the two failure-compatible wrappers the model uses for
    Python's `None` and for exceptions that propagate to the caller. */
module Wrappers {

  datatype Option<+T> = None | Some(value: T)

  datatype Result<+T, +E> = Ok(value: T) | Err(error: E)
}
