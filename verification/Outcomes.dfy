/** Failure-compatible results shared by the modules. */
module Outcomes {

  datatype Option<+T> = None | Some(value: T)

  /** How a call ends in the presence of exceptions: with a value, or by raising one.
      `:-` on a Raised result re-raises it from the enclosing method. */
  datatype Outcome<+T> = Returned(value: T) | Raised {
    predicate IsFailure() { Raised? }

    function PropagateFailure<U>(): Outcome<U>
      requires Raised?
    {
      Raised
    }

    function Extract(): T
      requires Returned?
    {
      value
    }
  }
}
