/** Option and Result, the two failure-carrying shapes the model uses in place of
    Rust's `Option<T>` and `Result<T, E>`. */
module Basics {

  datatype Option<+T> = None | Some(value: T) {

    /** The value, or `default` when there is none (Rust's `unwrap_or`). */
    function GetOr(default: T): T {
      match this
      case Some(v) => v
      case None => default
    }
  }

  datatype Result<+T, +E> = Ok(value: T) | Err(error: E)
}
