/** Optional values and fallible results shared by the other modules. */
module Wrappers {

  datatype Option<T> = None | Some(value: T)

  /** The outcome of a call that may throw: its value, or the thrown error's message. */
  datatype Result<T> = Ok(value: T) | Err(message: string)
}
