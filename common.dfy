/** Option and Result, the two failure-carrying wrappers used by every module. */
module Common {

  datatype Option<+T> = None | Some(value: T)

  /** `Err` carries the text that Python's `str(error)` would give for the raised exception. */
  datatype Result<+T> = Ok(value: T) | Err(error: string)
}
