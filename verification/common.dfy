/** Shared shapes of the wallet services' answers and of the calls one service makes to another. */
module Wrappers {

  datatype Option<+T> = None | Some(value: T)

  /** The `(result, error, status_code)` triple every controller and route returns:
      a value with a success code, or an error message with an error code. */
  datatype Reply<+T> = Ok(value: T, code: int) | Err(message: string, code: int)

  /** Outcome of an HTTP call to another service: it answered with a status code,
      or the client raised (connection refused, timeout) with the exception's text. */
  datatype Call = Answered(status: int) | Raised(reason: string)

  /** Outcome of a client helper that returns `(data, err)`: the decoded body of a
      200 answer, or the error text. */
  datatype Fetch<+T> = Got(value: T) | Failed(reason: string)

  /** A value read from a JSON payload with `float(...)`: a number, or a string `float`
      cannot read (it raises ValueError), or a JSON null, list or object (it raises
      TypeError). */
  datatype Amount = Number(value: int) | Garbage | WrongType

  /** The answer Flask gives when a handler raises an exception nobody catches. */
  const InternalError: string := "Internal Server Error"
}
