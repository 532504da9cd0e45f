/** Failure-carrying values shared by the three services' models. */
module Wrappers {

  datatype Option<+T> = None | Some(value: T) {
    function GetOr(default: T): T {
      match this
      case Some(v) => v
      case None => default
    }
  }

  datatype Result<+R, +E> = Success(value: R) | Failure(error: E)

  /** A Python exception: an `HTTPException(status_code, detail)` or any other
      error, with its message. */
  datatype Fault = Http(status: nat, detail: string) | Raised(message: string)
}
