/** Shapes shared by every module of the model: optional values, results,
    pass/fail outcomes, and the HTTP errors the services raise. */
module Wrappers {

  datatype Option<+T> = None | Some(value: T)

  datatype Result<+T, +E> = Ok(value: T) | Err(error: E)

  datatype Outcome<+E> = Pass | Fail(error: E)

  /** The HTTPException statuses the services raise; `Unhandled` stands for an
      exception nothing catches, which the framework answers with 500. */
  datatype Fault = BadRequest | Unauthorized | Forbidden | NotFound | Unhandled
  {
    function Status(): int {
      match this
      case BadRequest => 400
      case Unauthorized => 401
      case Forbidden => 403
      case NotFound => 404
      case Unhandled => 500
    }
  }
}
