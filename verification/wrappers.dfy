/** Option and Result types shared by every module of the model, and the
    single error type the client raises. */
module Wrappers {

  datatype Option<+T> = None | Some(value: T)

  /** The ways a call into the client can fail.
      - ApiError: a PurpleAirAPIError raised by the library's own checks,
        carrying its message text.
      - HttpFailure: the PurpleAirAPIError the Python transport helpers raise
        on a failure status, carrying the status code and the `error` and
        `description` fields of the server's payload.
      - PyError: an exception the Python interpreter raises rather than the
        library (a KeyError for a missing dictionary key, a TypeError for an
        operation on a value of the wrong type, an AttributeError for an
        attribute that was never set), with what it was about. */
  datatype Error =
    | ApiError(message: string)
    | HttpFailure(status: int, error: Json, description: Json)
    | PyError(kind: PyErrorKind, detail: string)

  datatype PyErrorKind = KeyError | TypeError | AttributeError

  datatype Result<+T> = Ok(value: T) | Err(error: Error) {
    predicate IsFailure() {
      Err?
    }

    function PropagateFailure<U>(): Result<U>
      requires Err?
    {
      Err(error)
    }

    function Extract(): T
      requires Ok?
    {
      value
    }
  }

  /** A parsed JSON value, as the transport layer hands it to the client.
      The model never computes with numbers, so integers and other numbers
      are kept apart only to be faithful to what a payload can hold. */
  datatype Json =
    | Null
    | Bool(b: bool)
    | Int(i: int)
    | Number(x: real)
    | Str(s: string)
    | Arr(items: seq<Json>)
    | Obj(fields: map<string, Json>)
}
