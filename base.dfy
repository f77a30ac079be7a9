/** Small value types shared by every module of the model. */
module Base {

  datatype Option<T> = None | Some(value: T)

  /** A value or the error that replaced it. */
  datatype Result<T, E> = Ok(value: T) | Err(error: E)

  /** An `HTTPException` raised by a request handler: its status code and its detail text. */
  datatype HttpError = HttpError(status: int, detail: string)

  /** What the server answers for an exception no handler catches. */
  const InternalServerError := "Internal Server Error"

  /** The largest PostgreSQL `bigint`, the type of a `LIMIT` or `OFFSET` value: 2^63 - 1. */
  const BigintMax: int := 0x7FFF_FFFF_FFFF_FFFF
}
