/** Failure-carrying datatypes shared by the handlers. */
module Wrappers {

  /** A value that may be absent: a JSON field that was not sent, a nullable column. */
  datatype Option<+T> = None | Some(value: T)

  /** The outcome of a handler whose failures leave the store untouched. */
  datatype Result<+T, +E> = Ok(value: T) | Err(error: E)
}
