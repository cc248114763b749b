/**
  Failure-carrying values used in place of Python's `None` and exceptions.
  - Option<T>: a value that may be absent (`None` in Python)
  - Result<T, E>: a value or the error that would have been raised
  - Outcome<E>: success without a value, or the error that would have been raised
 */
module Results {

  datatype Option<+T> = None | Some(value: T)

  datatype Result<+T, +E> = Success(value: T) | Failure(error: E) {
    predicate IsFailure() {
      Failure?
    }

    function PropagateFailure<U>(): Result<U, E>
      requires Failure?
    {
      Failure(error)
    }

    function Extract(): T
      requires Success?
    {
      value
    }
  }

  datatype Outcome<+E> = Pass | Fail(error: E)
}
