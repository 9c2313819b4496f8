/** Option and Result: the Go code's `(value, error)` pairs and its "zero value or error" results. */
module Wrappers {

  datatype Option<+T> = None | Some(value: T)

  datatype Result<+T, +E> = Ok(value: T) | Err(error: E)
}
