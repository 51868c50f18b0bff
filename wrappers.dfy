/** Failure-compatible result types shared by the modules of the model. */
module Wrappers {

  datatype Option<+T> = None | Some(value: T)

  /** A computation that either produces a value or stops with an error (a Rust panic). */
  datatype Result<+T, +E> = Ok(value: T) | Err(error: E)
}
