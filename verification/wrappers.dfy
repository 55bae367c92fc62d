/** Failure-carrying result types shared by the whole model. */
module Wrappers {

  /** A value that may be absent. */
  datatype Option<+T> = None | Some(value: T)

  /** Either a value or the error that prevented it, like Rust's `Result`. */
  datatype Result<+T, +E> = Ok(value: T) | Err(error: E)
}
