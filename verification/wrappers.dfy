/** Null-able values and error-carrying results, used in place of C# nulls and exceptions. */
module Wrappers {

  /** A C# reference that may be null: `None` stands for null. */
  datatype Option<+T> = None | Some(value: T) {

    /** The value, or `default` when null (C#'s `??`). */
    function GetOr(default: T): T {
      match this
      case Some(v) => v
      case None => default
    }
  }

  /** The value an operation returns, or the exception it raises. */
  datatype Result<+T, +E> = Success(value: T) | Failure(error: E) {

    predicate IsFailure() {
      Failure?
    }

    function PropagateFailure<U>(): Result<U, E>
      requires Failure?
    {
      Failure(error)
    }

    function Extract(): T
      requires Success?
    {
      value
    }
  }
}
