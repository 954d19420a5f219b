/** Option and Result, the two failure-carrying shapes every other module uses. */
module Wrappers {

  /** Rust's `Option<T>`. */
  datatype Option<+T> = None | Some(value: T) {

    /** `unwrap_or(default)` */
    function GetOr(default: T): T {
      match this
      case Some(v) => v
      case None => default
    }
  }

  /** Rust's `Result<T, E>`; `Err` carries the reason the source reports. */
  datatype Result<+T, +E> = Ok(value: T) | Err(error: E)
}
