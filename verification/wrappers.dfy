/** Optional values and typed failures: Python's `None` and raised exceptions. */
module Wrappers {

  /** A value that may be absent (`Optional[...]` in the source). */
  datatype Option<+T> = None | Some(value: T) {

    /** The wrapped value, or `default` when absent. */
    function GetOr(default: T): T {
      match this
      case Some(v) => v
      case None => default
    }
  }

  /** The exceptions the modelled operations raise. */
  datatype Error =
    | FileNotFound(path: string)
    | UnsupportedFormat(format: string)
    | NoSchemas

  /** Either a result or the exception the source would raise instead. */
  datatype Result<+R> = Ok(value: R) | Err(error: Error)
}
