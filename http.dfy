/**
 * Exceptions raised inside a request handler and the HTTP responses they
 * turn into. A handler body either returns a JSON body or raises; the two
 * service variants recover these exceptions differently at the boundary.
 */
module Http {
  import opened Strings

  datatype Exception =
    /** FastAPI's `HTTPException(status_code, detail)`. */
    | HttpException(status: nat, detail: string)
    /** Any other exception (a ValueError, a JSON decoding error), with its message. */
    | Other(message: string)

  /**
   * Python's `str(e)`. For an HTTPException this is Starlette's rendering,
   * the status code, a colon and a space, then the detail.
   */
  function Str(e: Exception): string {
    match e
    case HttpException(status, detail) => NatToText(status) + ": " + detail
    case Other(message) => message
  }

  /** What a handler body does: return a body or raise. */
  datatype Outcome<T> = Returned(value: T) | Raised(exc: Exception)

  /** What the client receives: status 200 with a body, or an error status with `{detail}`. */
  datatype Response<T> = Ok(body: T) | Failed(status: nat, detail: string)

  /**
   * main.py's handlers: `except Exception as e: raise HTTPException(500, str(e))`.
   * Every exception, an HTTPException included, reaches the client as a 500.
   */
  function CatchAll<T>(o: Outcome<T>): (r: Response<T>)
    ensures r.Ok? <==> o.Returned?
    ensures o.Returned? ==> r.body == o.value
    ensures r.Failed? ==> r.status == 500 && r.detail == Str(o.exc)
  {
    match o
    case Returned(v) => Ok(v)
    case Raised(e) => Failed(500, Str(e))
  }

  /**
   * face_auth_api.py's handlers: an HTTPException is re-raised with its own
   * status and detail; any other exception becomes a 500 carrying `str(e)`.
   */
  function PassHttpErrors<T>(o: Outcome<T>): (r: Response<T>)
    ensures r.Ok? <==> o.Returned?
    ensures o.Returned? ==> r.body == o.value
    ensures o.Raised? && o.exc.HttpException? ==> r == Failed(o.exc.status, o.exc.detail)
    ensures o.Raised? && o.exc.Other? ==> r == Failed(500, o.exc.message)
  {
    match o
    case Returned(v) => Ok(v)
    case Raised(HttpException(status, detail)) => Failed(status, detail)
    case Raised(Other(message)) => Failed(500, message)
  }

  /**
   * A 400 raised inside a main.py handler reaches the client as a 500 whose
   * detail is the 400's text prefixed by "400: ".
   */
  lemma ClientErrorBecomesServerError<T>(detail: string)
    ensures CatchAll<T>(Raised(HttpException(400, detail))) == Failed(500, "400: " + detail)
  {
  }
}
