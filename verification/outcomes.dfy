/**
 * Failure-compatible result types shared by the type generator, and the
 * three ways a generation call can be rejected.
 */
module Outcomes {

  datatype Option<+T> = None | Some(value: T)

  /** Every generation failure aborts the whole call; no partial schema is returned. */
  datatype Error =
    | MalformedPayload(slot: string)   // a message slot is missing, not an object, or lacks `type`/`value`
    | UnsupportedShape                 // a multi-dimensional array, or a null leaf
    | DuplicateCapacity(base: string)  // no free or matching suffix below the duplicate ceiling

  datatype Result<+T> = Ok(value: T) | Err(error: Error) {

    predicate IsFailure() {
      Err?
    }

    function PropagateFailure<U>(): Result<U>
      requires Err?
    {
      Err(error)
    }

    function Extract(): T
      requires Ok?
    {
      value
    }
  }
}
