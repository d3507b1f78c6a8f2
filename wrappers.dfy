/** Option, Result and the outcome of code that may panic. */
module Wrappers {

  datatype Option<+T> = None | Some(value: T)

  datatype Result<+T, +E> = Ok(value: T) | Err(error: E)

  /** What running a piece of Rust code gives: a returned value, or a panic
      (an `unwrap` on `None`/`Err`) that unwinds the calling thread. */
  datatype Outcome<+T> = Returned(value: T) | Panicked
}
