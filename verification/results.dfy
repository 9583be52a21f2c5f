/**
 * Failure-compatible result types shared by the interpreter and the
 * assembler.  Behaviour that is undefined in the C source (an index past the
 * end of a fixed array, a read past a string's terminator) is reported as an
 * `Err` value instead.
 */
module Results {

  datatype Option<+T> = None | Some(value: T)

  datatype Result<+T, +E> = Ok(value: T) | Err(error: E) {

    predicate IsFailure() {
      Err?
    }

    function PropagateFailure<U>(): Result<U, E>
      requires Err?
    {
      Err(error)
    }

    function Extract(): T
      requires Ok?
    {
      value
    }
  }
}
