/** Failure-carrying result types shared by the model. */
module Wrappers {

  /** An optional value: Rust's `Option<T>`. */
  datatype Option<+T> = None | Some(value: T)

  /** A value or an error message: Rust's `Result<T, String>`. */
  datatype Result<+T> = Ok(value: T) | Err(error: string)

  /** How a Rust call ends: it returns a value, or it panics (an `unwrap` on
      `None`/`Err`, or an index-assignment into a JSON value that is not an object). */
  datatype Outcome<+T> = Returned(value: T) | Panicked
}
