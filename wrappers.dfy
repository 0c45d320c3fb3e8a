/** Option and Result, used for the error paths of the modelled code
    (Rust `Option`, Python exceptions, TypeScript `throw`). */
module Wrappers {
  datatype Option<+T> = None | Some(value: T)

  datatype Result<+T, +E> = Ok(value: T) | Err(error: E)
}
