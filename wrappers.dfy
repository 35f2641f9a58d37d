/** Option and Result, the shapes in which Go's `nil`-or-value and
    value-or-`error` returns are written in this model. */
module Wrappers {

  datatype Option<+T> = None | Some(value: T)

  datatype Result<+T, +E> = Ok(value: T) | Err(error: E)
}
