/** Failure-compatible wrappers shared by the modules of the model. */
module Wrappers {

  /** A value that may be absent; stands for a null pointer or a missing entry. */
  datatype Option<+T> = None | Some(value: T)

  /** The outcome of an operation that can end in an error the source treats as fatal. */
  datatype Result<+T, +E> = Ok(value: T) | Err(error: E)
}
