/** Failure values of the converter: the Python exceptions its code raises,
    and the Option/Result wrappers used to carry them. */
module Outcomes {

  /** The exceptions the converter can raise, by Python exception class. */
  datatype Error =
    | EmptyDocument      // the ValueError raised when the parsed document is falsy
    | MissingAttribute   // an AttributeError: `.get`, `.items` or `.startswith` on a value without it
    | BadType            // a TypeError: iterating a scalar, a regex or `join` on a non-string, hashing a list or mapping

  datatype Option<+T> = None | Some(value: T)

  /** The outcome of a stage that only changes the converter's tables. */
  datatype Outcome = Pass | Fail(error: Error)

  /** The outcome of a stage: a value, or the exception that aborts the conversion. */
  datatype Result<+T> = Ok(value: T) | Err(error: Error) {
    predicate IsFailure() {
      Err?
    }

    function PropagateFailure<U>(): Result<U>
      requires Err?
    {
      Err(error)
    }

    function Extract(): T
      requires Ok?
    {
      value
    }
  }
}
