/** Rust's `Option` and `Result`, as used throughout the crate. */
module Wrappers {

  /** `Option<T>`: nothing, or a value. */
  datatype Option<T> = None | Some(value: T)

  /** `Result<T, E>`: a value, or an error. */
  datatype Result<T, E> = Ok(value: T) | Err(error: E)
}
