/** Failure-carrying results shared by the uplift modules. */
module Wrappers {

  datatype Option<+T> = None | Some(value: T)

  /** Either a computed value or the condition that stopped the computation. */
  datatype Result<+R, +E> = Success(value: R) | Failure(error: E) {
    predicate IsFailure() { Failure? }

    function PropagateFailure<U>(): Result<U, E>
      requires Failure?
    {
      Failure(error)
    }

    function Extract(): R
      requires Success?
    {
      value
    }
  }
}
