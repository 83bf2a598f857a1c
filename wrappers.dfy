/** Nullable values and thrown exceptions of the modelled C# code. */
module Wrappers {

  /** A C# reference or `Nullable<T>` that may be null. */
  datatype Option<+T> = None | Some(value: T) {
    function GetOr(default: T): T {
      match this
      case Some(v) => v
      case None => default
    }
  }

  /** The outcome of a C# call that either returns or throws. */
  datatype Result<+R, +E> = Success(value: R) | Failure(error: E)
}
