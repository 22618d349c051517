/** Failure-carrying datatypes used throughout the model: `Option` for a value
    that may be missing and `Result` for an operation that may raise. */
module Wrappers {

  datatype Option<+T> = None | Some(value: T)

  datatype Result<+R, +E> = Ok(value: R) | Err(error: E)
}
