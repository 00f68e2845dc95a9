/** Shared result types: the HTTP errors the handlers raise and the optional values they return. */
module Common {

  datatype Option<+T> = None | Some(value: T)

  /** An HTTPException as raised by a handler: a status code and its `detail` text. */
  datatype HttpError = HttpError(status: int, detail: string)

  /** A handler either returns a value or raises an HTTPException. */
  datatype Result<+T> = Ok(value: T) | Err(error: HttpError) {

    predicate IsFailure() {
      Err?
    }

    function PropagateFailure<U>(): Result<U>
      requires Err?
    {
      Err(error)
    }

    function Extract(): T
      requires Ok?
    {
      value
    }
  }

  /** What FastAPI answers when a handler lets an exception other than HTTPException escape. */
  const InternalServerError := HttpError(500, "Internal Server Error")
}
