/** Failure-compatible wrappers: an optional value (Ruby's nil) and a result
    that is either a value or the exception a Ruby method would raise. */
module Wrappers {

  datatype Option<+T> = None | Some(value: T)

  datatype Result<+T, +E> = Ok(value: T) | Err(error: E)
}
