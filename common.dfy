/** Shared result types for the handlers and models of the bootcamp directory. */
module Common {

  /** A value that may be absent: an `undefined` query parameter, an unset body field. */
  datatype Option<+T> = None | Some(value: T)

  /** How a handler or a model operation can fail.
      - NotFound: the handler answers with `ErrorResponse(..., 404)`.
      - ValidationError: the schema refused the document (Mongoose `ValidationError`).
      - DuplicateKey: a unique index refused the insert (MongoDB error E11000).
      - TypeError: the handler threw (a method called on a value of the wrong type). */
  datatype Failure = NotFound | ValidationError | DuplicateKey | TypeError

  datatype Result<+T> = Ok(value: T) | Err(error: Failure)

  type Id = nat
}
