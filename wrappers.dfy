/** Optional values and results with an error, used wherever the Python code returns `None`
    or lets an exception propagate. */
module Wrappers {

  datatype Option<+T> = None | Some(value: T) {
    /** `getattr(obj, name, default)` once the attribute has been looked up. */
    function GetOr(default: T): T {
      match this
      case Some(v) => v
      case None => default
    }
  }

  datatype Result<+T, +E> = Success(value: T) | Failure(error: E)
}
