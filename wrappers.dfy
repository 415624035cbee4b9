/** Option and Result, used for the scraper's error returns. */
module Wrappers {

  datatype Option<+T> = None | Some(value: T)

  /** Either a value or the error that the Go code returns or panics with. */
  datatype Result<+T, +E> = Ok(value: T) | Err(error: E)
}
