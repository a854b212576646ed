/** Optional values and fallible results, shared by every module of the model.
    `None` stands for JavaScript's `null`/`undefined` and for Rust's `None`. */
module Wrappers {

  datatype Option<+T> = None | Some(value: T) {

    /** The value when present, otherwise `default` (JavaScript's `??`). */
    function GetOr(default: T): T {
      match this
      case Some(v) => v
      case None => default
    }
  }

  /** Rust's `Result`: either a value or an error. */
  datatype Result<+T, +E> = Success(value: T) | Failure(error: E)
}
