/** Failure-carrying wrappers shared by every module of the model. */
module Base {

  datatype Option<+T> = None | Some(value: T)

  datatype Result<+R, +E> = Success(value: R) | Failure(error: E)

  /** The Python exceptions that can escape a service call and reach the
      route layer, classified the way backend/app.py catches them. */
  datatype Error =
    | ValueError(message: string)
    | RequestError(message: string)   // requests.RequestException and subclasses
    | OtherError(message: string)     // anything else (KeyError, library errors, ...)

  function Min(a: int, b: int): int { if a <= b then a else b }
}
