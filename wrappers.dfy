/** Optional values and the outcome of an operation that can raise. */
module Wrappers {

  datatype Option<+T> = None | Some(value: T)

  /** `Err` carries the text of the exception the operation would raise (`str(e)`). */
  datatype Result<+T> = Ok(value: T) | Err(error: string)
}
