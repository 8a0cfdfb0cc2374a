/** Failure-carrying results used in place of the source's exceptions. */
module Wrappers {

  datatype Option<+T> = None | Some(value: T) {
    function GetOr(default: T): T {
      match this
      case Some(v) => v
      case None => default
    }
  }

  /** Ok carries a value; Err carries the text of the exception the source would raise. */
  datatype Result<+T> = Ok(value: T) | Err(error: string)
}
