/** Failure-compatible result types used to model the exceptions of the C# code. */
module Wrappers {

  datatype Option<+T> = None | Some(value: T)

  /** Either a value or the error a constructor would have thrown. */
  datatype Result<+T, +E> = Success(value: T) | Failure(error: E) {

    predicate IsFailure() {
      Failure?
    }

    function PropagateFailure<U>(): Result<U, E>
      requires Failure?
    {
      Failure(error)
    }

    function Extract(): T
      requires Success?
    {
      value
    }
  }
}
