/** Stock result types: a Go `nil` error is `None`, a comma-ok lookup is an `Option`. */
module Wrappers {
  datatype Option<+T> = None | Some(value: T)

  datatype Result<+T, +E> = Ok(value: T) | Err(error: E)
}
