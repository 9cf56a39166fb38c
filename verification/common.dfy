/** Values shared by every module: optional values, the exceptions the
    modelled code lets escape, and a result type that carries them. */
module Common {

  datatype Option<+T> = None | Some(value: T)

  /** The exceptions that escape the modelled code, by cause. */
  datatype Error =
    | DoesNotExist   // a `.get` matched no active row in the caller's scope
    | ValueTooLong   // a character column's max_length was exceeded on save
    | ZeroPageSize   // the paginator divided by a page size of 0
    | NoTaskId       // a job handle was built from a missing task id

  /** Either a value or the exception that ended the operation. Failure
      compatible, so `:-` propagates the exception like Python does. */
  datatype Result<+T> = Ok(value: T) | Err(error: Error) {

    predicate IsFailure() {
      Err?
    }

    function PropagateFailure<U>(): Result<U>
      requires Err?
    {
      Err(error)
    }

    function Extract(): T
      requires Ok?
    {
      value
    }
  }

  function Min(a: int, b: int): int {
    if a <= b then a else b
  }
}
