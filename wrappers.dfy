/** Option and Result, the two failure-carrying shapes the bridge uses:
    Rust's `Option<T>` and `anyhow::Result<T>` (whose error is shown as text). */
module Wrappers {

  datatype Option<+T> = None | Some(value: T) {
    /** `Option::unwrap_or` */
    function GetOr(default: T): T {
      match this
      case Some(v) => v
      case None => default
    }
  }

  datatype Result<+T, +E> = Success(value: T) | Failure(error: E)
}
