/** Option and Result, used for Python's `None`-or-value fields and for
    operations that either produce a value or raise with a message. */
module Wrappers {

  datatype Option<+T> = None | Some(value: T)

  /** `Err(msg)` carries the text that `str(e)` would give for the exception. */
  datatype Result<+T> = Ok(value: T) | Err(msg: string)
}
