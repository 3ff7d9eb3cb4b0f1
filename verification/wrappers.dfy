/** Failure-carrying datatypes shared by the model. Go's `(T, error)` pairs
    become `Result<T, E>`; a Go `error` field that may be nil becomes `Option`. */
module Wrappers {

  datatype Option<+T> = None | Some(value: T)

  datatype Result<+T, +E> = Ok(value: T) | Err(error: E)
}
