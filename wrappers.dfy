/** Failure-carrying results shared by the interpreter and the option parser. */
module Wrappers {

  datatype Option<+T> = None | Some(value: T)

  /** The source's `Result<T, E>`. */
  datatype Result<+T, +E> = Ok(value: T) | Err(error: E)

  /** The source's `Result<(), E>`: success carries no value. */
  datatype Outcome<+E> = Pass | Fail(error: E)
}
