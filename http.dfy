/**
 * What a handler answers: a normal response with its status code, or one of the
 * ways a request ends in an error before or inside the handler.
 */
module Http {
  const OK := 200
  const CREATED := 201
  const NO_CONTENT := 204
  const BAD_REQUEST := 400
  const UNAUTHORIZED := 401
  const FORBIDDEN := 403
  const NOT_FOUND := 404
  const CONFLICT := 409
  const UNPROCESSABLE := 422

  datatype Reply<+T> =
    | Ok(code: nat, body: T)
      /** An `HTTPException` raised by the handler itself. */
    | Raised(code: nat, detail: string)
      /** The path parameter failed the framework's validation (`Path(ge=1)`); the handler is not called. */
    | Unprocessable
      /** The database refused a write; the session dependency rolled back and answers 400
          with the driver's message, whose text is not modelled. */
    | RolledBack
      /** The token service refused the bearer token; its 401 detail text is not modelled. */
    | Unauthenticated
      /** The handler returned a value its route's response model does not accept; the
          framework answers 500 instead of sending it. */
    | InvalidResponse(returned: T)
}
