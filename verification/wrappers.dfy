/** The `Option` and `Result` types shared by the whole model. */
module Wrappers {

  /** A value that may be absent: Rust's `Option`. */
  datatype Option<+T> = None | Some(value: T)

  /** The outcome of an operation that can abort: `Ok` carries the value,
      `Err` the reason the run stops. */
  datatype Result<+T, +E> = Ok(value: T) | Err(error: E)
}
