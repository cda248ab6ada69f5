/** Result shapes shared by the model. */
module Wrappers {

  datatype Option<+T> = None | Some(value: T)

  /** The outcome of an operation of the Go package: a value, an error value that
      Go returns to its caller, or `Abort`, which stands for a Go `panic`. */
  datatype Outcome<+T, +E> = Ok(value: T) | Err(error: E) | Abort
}
