/** Optional values and fallible results, the model's stand-ins for Go's
    nil-able pointers and `(value, error)` return pairs. */
module Wrappers {

  datatype Option<+T> = None | Some(value: T)

  datatype Result<+T, +E> = Ok(value: T) | Fail(error: E)
}
