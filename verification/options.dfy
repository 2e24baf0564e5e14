/** Optional values and success/failure results, used wherever the source has
    `null`/`undefined` or an early return with an error message. */
module Options {

  /** A value that may be absent (`T | null`, `T | undefined`). */
  datatype Option<+T> = None | Some(value: T) {

    /** The wrapped value, or `default` when absent (`x ?? default`). */
    function GetOr(default: T): T {
      match this
      case Some(v) => v
      case None => default
    }
  }

  /** The outcome of an operation that can be rejected with a message. */
  datatype Result<+T, +E> = Ok(value: T) | Err(error: E)
}
