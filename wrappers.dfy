/** Option and Result values used for the source's `undefined` and for its thrown errors. */
module Wrappers {

  /** A value that may be absent (`undefined` in the source). */
  datatype Option<+T> = None | Some(value: T) {
    function GetOr(default: T): T {
      match this
      case Some(v) => v
      case None => default
    }
  }

  /** `string | null` and similar nullable values. */
  datatype Nullable<+T> = Null | NonNull(value: T)

  /** The outcome of an operation that throws in the source. */
  datatype Result<+T, +E> = Success(value: T) | Failure(error: E)
}
