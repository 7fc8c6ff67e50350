/** Result types shared by the handler models. */
module Wrappers {

  datatype Option<+T> = None | Some(value: T)

  /** What a request handler gives back: a value, or the error it raised. */
  datatype Result<+T, +E> = Ok(value: T) | Err(error: E)
}
