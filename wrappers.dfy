/** Failure-compatible wrappers shared by the other modules. */
module Wrappers {

  /** A value that may be absent, as Swift's optionals. */
  datatype Option<+T> = None | Some(value: T)

  /** The outcome of an operation that may throw; `:-` propagates the error. */
  datatype Result<+T, +E> = Ok(value: T) | Err(error: E) {
    predicate IsFailure() {
      Err?
    }

    function PropagateFailure<U>(): Result<U, E>
      requires Err?
    {
      Err(error)
    }

    function Extract(): T
      requires Ok?
    {
      value
    }
  }
}
