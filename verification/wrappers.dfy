/** Optional values and success-or-error results. */
module Wrappers {

  /** A value that may be absent; Go's nil `*Period` is `None`. */
  datatype Option<+T> = None | Some(value: T)

  /** Either a computed value or the error that stopped the computation. */
  datatype Result<+T, +E> = Success(value: T) | Failure(error: E)
}
