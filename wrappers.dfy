/** Optional values and results with an error, used wherever the source has
    `undefined`/`null` or throws. */
module Wrappers {

  datatype Option<+T> = None | Some(value: T) {
    /** `value ?? default` */
    function GetOr(default: T): T {
      match this
      case Some(v) => v
      case None => default
    }
  }

  datatype Result<+T, +E> = Ok(value: T) | Err(error: E)
}
