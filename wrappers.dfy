/** Failure-carrying values shared by the server and client models. */
module Wrappers {

  /** A value that may be absent: an unparsable number, a missing entry. */
  datatype Option<+T> = None | Some(value: T)

  /** The outcome of a step that can fail with an error of type E. */
  datatype Result<+T, +E> = Ok(value: T) | Err(error: E)
}
