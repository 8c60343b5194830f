/** Optional values and results with an error, standing in for Go's
    `(value, error)` returns and panics. */
module Outcomes {

  datatype Option<+T> = None | Some(value: T)

  datatype Result<+T, +E> = Ok(value: T) | Err(error: E)
}
