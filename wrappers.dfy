/** Option and Result, used for Kotlin's nullable values and for early-return error paths. */
module Wrappers {
  /** A Kotlin `T?`: `None` is `null`. */
  datatype Option<T> = None | Some(value: T) {
    /** Kotlin's `x ?: default`. */
    function GetOr(default: T): T {
      if Some? then value else default
    }
  }

  datatype Result<T, E> = Success(value: T) | Failure(error: E)
}
