/** Failure-compatible wrappers used throughout the model: `Option` for a value
    that may be absent (Python's `None`) and `Result` for a computation that
    either returns a value or raises an exception. Both work with Dafny's `:-` operator. */
module Basics {

  datatype Option<+T> = None | Some(value: T) {
    predicate IsFailure() {
      None?
    }

    function PropagateFailure<U>(): Option<U>
      requires None?
    {
      None
    }

    function Extract(): T
      requires Some?
    {
      value
    }
  }

  datatype Result<+T, +E> = Returned(value: T) | Raised(error: E) {
    predicate IsFailure() {
      Raised?
    }

    function PropagateFailure<U>(): Result<U, E>
      requires Raised?
    {
      Raised(error)
    }

    function Extract(): T
      requires Returned?
    {
      value
    }
  }
}
