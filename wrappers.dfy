/** Optional values and results, in the shape Swift's `Optional` and `throws` take in this model. */
module Wrappers {

  /** Swift's `Optional`: `.none` is `None`, `.some(x)` is `Some(x)`. */
  datatype Option<+T> = None | Some(value: T)

  /** The outcome of an operation that can throw: a value, or the error it threw. */
  datatype Result<+R, +E> = Success(value: R) | Failure(error: E) {

    predicate IsFailure() {
      Failure?
    }

    function PropagateFailure<U>(): Result<U, E>
      requires Failure?
    {
      Failure(error)
    }

    function Extract(): R
      requires Success?
    {
      value
    }
  }
}
