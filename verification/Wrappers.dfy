/** Failure-compatible result types used by every other module. */
module Wrappers {

  datatype Option<+T> = None | Some(value: T)
  {
    predicate IsFailure() {
      None?
    }

    function PropagateFailure<U>(): Option<U>
      requires None?
    {
      None
    }

    function Extract(): T
      requires Some?
    {
      value
    }
  }

  /** A returned value, or the exception class that the source would raise. */
  datatype Result<+T, +E> = Ok(value: T) | Err(error: E)
}
