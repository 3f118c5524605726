/** Failure-carrying values shared by every module of the model. */
module Wrappers {

  /** A value that may be absent (a Go `(v, ok)` pair or a nil reference). */
  datatype Option<T> = None | Some(value: T)

  /** A value or an error (a Go `(v, err)` pair). */
  datatype Result<T, E> = Ok(value: T) | Err(error: E)
}
