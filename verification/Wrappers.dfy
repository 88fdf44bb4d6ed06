/** Failure-compatible results shared by every module of the model. */
module Wrappers {

  datatype Option<+T> = None | Some(value: T)

  /** The outcome of a transaction: the committed value, or the error that rolled it back. */
  datatype Result<+T, +E> = Ok(value: T) | Rejected(error: E) {

    predicate IsFailure() {
      Rejected?
    }

    function PropagateFailure<U>(): Result<U, E>
      requires Rejected?
    {
      Rejected(error)
    }

    function Extract(): T
      requires Ok?
    {
      value
    }
  }

  /** A guard that lets a transaction go on, or names the error that rolls it back. */
  datatype Check<+E> = Pass | Fail(error: E) {

    predicate IsFailure() {
      Fail?
    }

    function PropagateFailure<U>(): Result<U, E>
      requires Fail?
    {
      Rejected(error)
    }
  }
}
