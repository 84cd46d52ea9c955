/** Option and Result, the shapes the TypeScript code expresses with `T | null` and thrown errors. */
module Wrappers {

  /** `None` stands for JavaScript's `null` or `undefined`. */
  datatype Option<+T> = None | Some(value: T) {

    /** The nullish-coalescing operator `this ?? default`. */
    function GetOr(default: T): T {
      match this
      case Some(v) => v
      case None => default
    }
  }

  datatype Result<+T, +E> = Success(value: T) | Failure(error: E)
}
