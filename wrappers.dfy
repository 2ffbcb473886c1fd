/** Option and Result values shared by the calculators. */
module Wrappers {

  /** A value that may be absent, as an attribute that has not been assigned yet. */
  datatype Option<+T> = None | Some(value: T)

  /** The outcome of an operation that can fail with an error of type `E`. */
  datatype Result<+T, +E> = Ok(value: T) | Err(error: E)
}
