/** Results of operations that the application aborts on (`Fatal()` or a failed
    internal assertion). The model returns the failure instead of aborting. */
module Outcomes {

  datatype Error =
    /** A cubic Bézier curve was given a number of control points other than 4. */
    | WrongControlPointCount(expected: nat, actual: nat)
    /** A picked drawable id has no entry in the drawable-to-point map, or its
        entry points past the end of the data points. */
    | UnknownDrawable(id: nat)

  datatype Result<+T> = Ok(value: T) | Err(error: Error) {
    predicate IsFailure() {
      Err?
    }

    function PropagateFailure<U>(): Result<U>
      requires Err?
    {
      Err(error)
    }

    function Extract(): T
      requires Ok?
    {
      value
    }
  }

  /** A value that may be absent, as a null pointer may be. */
  datatype Option<+T> = None | Some(value: T)
}
