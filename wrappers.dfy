/** Failure-carrying wrappers shared by the other modules. */
module Wrappers {

  datatype Option<+T> = None | Some(value: T)

  /** The source's `Result<T, ()>`: the error carries no information. */
  datatype Result<+T> = Ok(value: T) | Err
}
