/** Failure-carrying values shared by every module of the model. */
module Wrappers {

  /** A Python value that may be `None`. */
  datatype Option<+T> = None | Some(value: T)

  /** The outcome of a call that either returns a value or raises an exception
      whose text is `error`. */
  datatype Result<+T, +E> = Ok(value: T) | Err(error: E)
}
