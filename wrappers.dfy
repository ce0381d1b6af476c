/** Option and Result, used for the source's "absent" values and thrown errors. */
module Wrappers {

  datatype Option<+T> = None | Some(value: T)

  /** A computation that either yields a value or fails with an error (a thrown `Error` in the source). */
  datatype Result<+T, +E> = Ok(value: T) | Err(error: E)
}
