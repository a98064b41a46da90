/** Small shared vocabulary: optional values, the HTTP errors the handlers raise,
    and handler results. */
module Common {

  datatype Option<+T> = None | Some(value: T)

  /** The HTTP status codes the backend answers with on failure. */
  datatype HttpError =
    | BadRequest            // 400: raised explicitly (duplicate email)
    | Unauthorized          // 401: raised explicitly (bad login)
    | Forbidden             // 403: raised explicitly (role check)
    | NotFound              // 404: raised explicitly (unknown hotel, order not pending)
    | UnprocessableEntity   // 422: request body rejected by the pydantic model
    | InternalServerError   // 500: an unhandled exception inside the handler

  /** What a handler returns: its response body, or the error it raises. */
  datatype Result<+T> = Ok(value: T) | Err(error: HttpError)

  function Min(a: int, b: int): (m: int)
    ensures m <= a && m <= b && (m == a || m == b)
  {
    if a <= b then a else b
  }

  function Max(a: int, b: int): (m: int)
    ensures m >= a && m >= b && (m == a || m == b)
  {
    if a >= b then a else b
  }
}
