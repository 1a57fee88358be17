/** Optional values and success-or-error results, used wherever the application
    returns `undefined`/`None`, raises, or refuses an action with an alert. */
module Outcomes {

  datatype Option<+T> = None | Some(value: T) {
    function GetOr(default: T): T {
      match this
      case Some(v) => v
      case None => default
    }
  }

  datatype Result<+T, +E> = Ok(value: T) | Err(error: E)
}
