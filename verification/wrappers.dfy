/** Result and option types shared by the other modules. */
module Wrappers {
  datatype Option<+T> = None | Some(value: T)

  /** The outcome of a Go function that returns `(value, error)`. */
  datatype Result<+T> = Ok(value: T) | Err(message: string)
}
