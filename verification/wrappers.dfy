/** Failure-carrying datatypes used throughout the model. */
module Wrappers {

  /** A value that may be missing: a NaN cell of a table, an absent lookup. */
  datatype Option<+T> = None | Some(value: T)

  /** The outcome of an operation that raises in the original program. */
  datatype Result<+T, +E> = Ok(value: T) | Err(error: E)
}
