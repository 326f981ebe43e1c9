/** Optional values, the Python exceptions the service can raise, and the
    value-or-exception result every fallible operation of the model returns. */
module Outcomes {

  /** Python's `Optional[T]`: `None` or a value. */
  datatype Option<+T> = None | Some(value: T) {
    function GetOr(default: T): T {
      match this
      case Some(v) => v
      case None => default
    }
  }

  /** The exception classes the core raises or catches, each with its `str()` text. */
  datatype Exception =
    | ValueError(message: string)
    | JsonDecodeError(message: string)      // json.JSONDecodeError, a subclass of ValueError
    | ValidationError(message: string)      // pydantic's ValidationError, a subclass of ValueError
    | FileNotFoundError(message: string)
    | AttributeError(message: string)
    | KeyError(message: string)
    | TypeError(message: string)
    | NameError(message: string)
    | OtherError(message: string)
  {
    /** True for every class that an `except ValueError` clause catches. */
    predicate IsValueError() {
      ValueError? || JsonDecodeError? || ValidationError?
    }
  }

  /** The outcome of a Python call: it returned a value or it raised. */
  datatype Result<+T> = Ok(value: T) | Raised(exc: Exception)
}
