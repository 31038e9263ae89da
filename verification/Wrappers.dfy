/** Result types shared by the models of this project. */
module Wrappers {

  /** A value that may be absent: the Rust `Option`, the JavaScript `null`. */
  datatype Option<+T> = None | Some(value: T)

  /** The outcome of a fallible operation. */
  datatype Result<+T, +E> = Ok(value: T) | Err(error: E)
}
