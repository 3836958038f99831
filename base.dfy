/** Result values standing in for the exceptions the Python program raises. */
module Base {

  /** The exceptions of the evaluation path, one constructor per cause. */
  datatype Error =
    | MissingColumn(column: string)    // pandas KeyError: a line-label column is absent
    | NotExactlyOneRow(found: nat)    // `.item()` on a selection that is not of size one
    | LabelIndex(matched: nat)        // `ou_cols[1]` with fewer than two matching labels
    | DivisionByZero                  // Python float division by 0.0
    | EndOfInput                      // `input()` after the operator's answers are exhausted

  datatype Option<+T> = None | Some(value: T)

  datatype Result<+T> = Ok(value: T) | Err(error: Error) {
    predicate IsFailure() { Err? }

    function PropagateFailure<U>(): Result<U>
      requires Err?
    {
      Err(error)
    }

    function Extract(): T
      requires Ok?
    {
      value
    }
  }
}
