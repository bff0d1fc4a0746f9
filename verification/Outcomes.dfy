/** Results of checks that either return a value or raise a named fault. */
module Outcomes {
  datatype Option<+T> = None | Some(value: T) {
    predicate IsFailure() { None? }

    function PropagateFailure<U>(): Option<U>
      requires None?
    {
      None
    }

    function Extract(): T
      requires Some?
    {
      value
    }
  }

  datatype Result<+T, +E> = Ok(value: T) | Raised(fault: E) {
    predicate IsFailure() { Raised? }

    function PropagateFailure<U>(): Result<U, E>
      requires Raised?
    {
      Raised(fault)
    }

    function Extract(): T
      requires Ok?
    {
      value
    }
  }
}
