/** Option and Result types for the Go idioms `(value, found)` and `(value, error)`. */
module Wrappers {
  datatype Option<T> = None | Some(value: T)

  datatype Result<T, E> = Ok(value: T) | Err(error: E)
}
