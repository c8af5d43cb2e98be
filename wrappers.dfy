/** Optional values and results, shared by the whole model. */
module Wrappers {

  /** A value that may be absent; `None` also stands for Go's `nil` error. */
  datatype Option<+T> = None | Some(value: T)

  /** The outcome of a step that either yields a value or fails with an error. */
  datatype Result<+T, +E> = Success(value: T) | Failure(error: E)
}
