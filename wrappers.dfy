/** Option and Result values used in place of Python's None and raised exceptions. */
module Wrappers {

  datatype Option<+T> = None | Some(value: T)

  /** `Err(message)` stands for a raised Python exception whose `str(e)` is `message`. */
  datatype Result<+T> = Ok(value: T) | Err(message: string)
}
