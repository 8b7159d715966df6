/** Optional values and results, standing in for Python's `None` and for
    exceptions raised by the codec. Both work with Dafny's `:-` operator. */
module Wrappers {

  /** Python's `None`, or a present value. */
  datatype Option<+T> = None | Some(value: T)

  /** A call that either returns a value or raises `error`. */
  datatype Result<+T, +E> = Success(value: T) | Failure(error: E) {

    predicate IsFailure() {
      Failure?
    }

    function PropagateFailure<U>(): Result<U, E>
      requires Failure?
    {
      Failure(error)
    }

    function Extract(): T
      requires Success?
    {
      value
    }
  }
}
