/** The option and result types used for the source's `(value, ok)` and
    `(value, error)` returns, and counting. */
module Wrappers {
  /** A condition as a count. */
  function Unit(b: bool): nat {
    if b then 1 else 0
  }

  datatype Option<+T> = None | Some(value: T)

  datatype Result<+T, +E> = Ok(value: T) | Err(error: E) {
    predicate IsFailure() {
      Err?
    }

    function PropagateFailure<U>(): Result<U, E>
      requires Err?
    {
      Err(error)
    }

    function Extract(): T
      requires Ok?
    {
      value
    }
  }
}
