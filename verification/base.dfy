/**
 Rust's `Option` and `Result`, as the contracts use them: a missing
 stored value and a call that either succeeds or fails with an error.
 */
module Base {

  datatype Option<+T> = None | Some(value: T)

  datatype Result<+T, +E> = Ok(value: T) | Err(error: E)
}
