/** Option and Result, the two failure-carrying shapes the model uses. */
module Wrappers {

  datatype Option<+T> = None | Some(value: T)

  /** Either a value or the reason there is none (the source's rejected promise). */
  datatype Result<+T, +E> = Ok(value: T) | Err(error: E)
}
