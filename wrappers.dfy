/** Failure-compatible wrappers used for nullable values and thrown argument errors. */
module Wrappers {

  /** A value that may be absent (a C# `null` or a `Nullable<T>` without a value). */
  datatype Option<+T> = None | Some(value: T)

  /** The outcome of an operation that either returns a value or throws an error. */
  datatype Result<+T, +E> = Success(value: T) | Failure(error: E)
}
