/** Option and Result values, and the kinds of Python exception the backend raises. */
module Wrappers {

  datatype Option<+T> = None | Some(value: T) {
    function GetOr(default: T): T {
      match this
      case Some(v) => v
      case None => default
    }
  }

  datatype Result<+R, +E> = Success(value: R) | Failure(error: E)

  /** The exceptions that cross the backend's module boundaries, by Python class. */
  datatype Exception =
    | ValueError(message: string)
    | FileNotFoundError(message: string)
      /** Any other exception (for example an HTTP error raised by the LLM client). */
    | OtherError(message: string)
}
