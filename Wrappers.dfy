/** Optional values, results with an error channel, and the HTTP error that
    the service layers raise. */
module Wrappers {

  datatype Option<+T> = None | Some(value: T) {
    function GetOr(default: T): T {
      match this
      case Some(v) => v
      case None => default
    }
  }

  datatype Result<+T, +E> = Ok(value: T) | Err(error: E)

  /** An `HTTPException`: a status code and its `detail` text. */
  datatype HttpError = HttpError(status: int, detail: string)

  /** A moment on the wall clock, in microseconds (the resolution of Python's
      `datetime`). Every operation that reads the clock takes it as a parameter. */
  type Instant = int

  const MicrosPerSecond: int := 1_000_000
}
