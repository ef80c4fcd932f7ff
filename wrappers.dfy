/** Absence values and error results shared by the model. */
module Wrappers {

  /** A value that may be absent (Python's `None`). */
  datatype Option<T> = None | Some(value: T)

  /** The outcome of a call that either returns normally or raises. */
  datatype Result<T, E> = Ok(value: T) | Err(error: E)
}
