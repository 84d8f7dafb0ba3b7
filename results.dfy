/** Outcome of a decode step: the decoded value, or the structural error that aborts the
    whole document. Usable with `:-` in both functions and methods. */
module Results {

  /** Why a decode fails. Every error is fatal to the enclosing document. */
  datatype Error =
    | OutOfBounds                  // a fixed-width read runs past the end of the buffer
    | InvalidOffset(offset: nat)   // a non-zero offset outside the buffer is dereferenced
    | MalformedString              // a null-terminated string has no terminator
    | NegativeCapacity(count: int) // a negative count is assigned to List.Capacity

  datatype Result<T> = Ok(value: T) | Err(error: Error) {

    predicate IsFailure() {
      Err?
    }

    function PropagateFailure<U>(): Result<U>
      requires Err?
    {
      Err(error)
    }

    function Extract(): T
      requires Ok?
    {
      value
    }
  }

  /** A check that either passes or fails with an error; `:- check;` stops at a failure. */
  datatype Outcome = Pass | Fail(error: Error) {

    predicate IsFailure() {
      Fail?
    }

    function PropagateFailure<U>(): Result<U>
      requires Fail?
    {
      Err(error)
    }
  }

  /** A nullable reference: `None` stands for the .NET `null`. */
  datatype Option<T> = None | Some(value: T)
}
