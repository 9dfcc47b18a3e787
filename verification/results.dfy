/** Outcomes shared by every stage of the report pipeline.

    Every failure of the original scripts is an uncaught Python exception that
    ends the whole pass, so a single failure kind per exception is enough. */
module Results {

  datatype Option<+T> = None | Some(value: T)

  /** Why a pass over the parameter rows aborted. */
  datatype Failure =
    | BadInteger   // `int(...)` raised ValueError on the text it was given
    | NoMatch      // `re.search` returned None, so `capture.group` raised
    | OutOfScope   // a path outside the bracket fragment this model covers
    | ZeroDivision // `size / length` with `length == 0`

  datatype Result<+T> = Ok(value: T) | Err(failure: Failure) {

    predicate IsFailure() {
      Err?
    }

    function PropagateFailure<U>(): Result<U>
      requires Err?
    {
      Err(failure)
    }

    function Extract(): T
      requires Ok?
    {
      value
    }
  }
}
