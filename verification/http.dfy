/**
 * The HTTP outcome of a route: a body or an `HTTPException` with a status
 * code, and the `try`/`except HTTPException: raise`/`except Exception` guard
 * every route wraps around its processing block.
 */
module Http {

  /** Why a request was refused; stands for the `detail` text of each `HTTPException`. */
  datatype Reason =
    | InvalidForm        // FastAPI's own 422 for a form field outside its declared bounds
    | FilenameRequired
    | InvalidFileType
    | FileTooLarge
    | AudioTooLong
    | NoPitchShift
    | ProcessingFailed   // any exception that is not an HTTPException

  datatype HttpError = HttpError(status: int, reason: Reason)

  /** What a route returns to the client. */
  datatype Response<+T> = Ok(body: T) | Err(error: HttpError)

  /** How the processing block of a route ends: a value, an `HTTPException`, or any other exception. */
  datatype Raised<+T> = Value(value: T) | HttpException(error: HttpError) | OtherException

  const BadRequest: int := 400
  const PayloadTooLarge: int := 413
  const UnprocessableEntity: int := 422
  const InternalServerError: int := 500

  /**
   * `except HTTPException: raise` followed by `except Exception as e: raise
   * HTTPException(status_code=500, ...)`: an HTTP error leaves the block with
   * its own code, any other failure becomes a 500.
   */
  function Guard<T>(r: Raised<T>): (resp: Response<T>)
    ensures resp.Ok? <==> r.Value?
    ensures resp.Ok? ==> resp.body == r.value
    ensures r.HttpException? ==> resp.Err? && resp.error == r.error
    ensures r.OtherException? ==> resp.Err? && resp.error.status == InternalServerError
  {
    match r
    case Value(v) => Ok(v)
    case HttpException(e) => Err(e)
    case OtherException => Err(HttpError(InternalServerError, ProcessingFailed))
  }

  /**
   * A header value Starlette can send: `StreamingResponse` encodes every
   * header value with latin-1, which raises for a character above U+00FF.
   */
  predicate Latin1(s: string) {
    forall i :: 0 <= i < |s| ==> s[i] as int < 256
  }

  lemma {:induction false} Latin1Concat(a: string, b: string)
    ensures Latin1(a + b) <==> Latin1(a) && Latin1(b)
  {
    if Latin1(a + b) {
      forall i | 0 <= i < |a| ensures a[i] as int < 256 {
        assert a[i] == (a + b)[i];
      }
      forall i | 0 <= i < |b| ensures b[i] as int < 256 {
        assert b[i] == (a + b)[|a| + i];
      }
    }
  }
}
