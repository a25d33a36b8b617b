/** Optional values and fallible results, the shapes that fp-ts's `Option` and a
    throwing `JSON.parse` take in this model. */
module Wrappers {

  datatype Option<+T> = None | Some(value: T)

  /** The outcome of a call that may throw: `Failure` stands for the exception. */
  datatype Result<+R, +E> = Success(value: R) | Failure(error: E)
}
