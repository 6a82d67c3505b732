/** Option and Result, the two failure-carrying shapes the shell's commands return. */
module Wrappers {

  /** Rust's `Option<T>`. */
  datatype Option<+T> = None | Some(value: T)

  /** Rust's `Result<T, E>`; every command in the shell reports its errors as a `String`. */
  datatype Result<+T, +E> = Ok(value: T) | Err(error: E)
}
