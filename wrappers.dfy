/** Failure-compatible result types shared by the whole model. */
module Wrappers {

  /** A value that may be absent; stands for a C# reference or nullable that may be null. */
  datatype Option<+T> = None | Some(value: T)

  /** The outcome of an operation that either produces a value or throws. */
  datatype Result<+T, +E> = Ok(value: T) | Err(error: E) {
    predicate IsFailure() { Err? }

    function PropagateFailure<U>(): Result<U, E>
      requires Err?
    {
      Err(error)
    }

    function Extract(): T
      requires Ok?
    {
      value
    }
  }

  /** The outcome of an operation that only has an effect, or throws. */
  datatype Outcome<+E> = Pass | Fail(error: E)
}
