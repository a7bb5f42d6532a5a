/** Failure-carrying wrappers shared by every stage of the pipeline. */
module Results {

  /** A value that may be absent (pandas' missing marker, NaN / NA). */
  datatype Option<+T> = None | Some(value: T)

  /** The exceptions the script can raise while it walks the archive or builds its table.
      KeyError: a required key is absent. TypeError: a value has the wrong JSON shape
      for the operation applied to it. CastError: a column cast rejects a cell. */
  datatype Failure =
    | KeyError(key: string)
    | TypeError(context: string)
    | CastError(column: string)

  /** Either a computed value or the exception that aborted the computation. */
  datatype Result<+T> = Ok(value: T) | Err(error: Failure) {

    predicate IsFailure() {
      Err?
    }

    function PropagateFailure<U>(): Result<U>
      requires Err?
    {
      Err(error)
    }

    function Extract(): T
      requires Ok?
    {
      value
    }
  }
}
