/** Small value wrappers shared by every controller model. */
module Wrappers {

  /** A nullable value: a missing request field or a NULL column. */
  datatype Option<+T> = None | Some(value: T) {
    /** The value, or `default` when absent (JavaScript's `x || default` on a nullable number). */
    function GetOr(default: T): T {
      match this
      case Some(v) => v
      case None => default
    }
  }

  /** An HTTP response: a success with its status code and body, or an error
      with its status code and the reason the controller gave. */
  datatype Reply<+T, +E> = Ok(status: int, body: T) | Fail(status: int, error: E)
}
