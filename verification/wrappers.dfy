/** Rust's `Option` and `Result`, shared by the server and client models. */
module Wrappers {

  /** An optional value, as Rust's `Option`. */
  datatype Option<+T> = None | Some(value: T)

  /** The outcome of an operation that the source ends with a panic (`unwrap`) on failure. */
  datatype Result<+R, +E> = Ok(value: R) | Err(error: E)
}
