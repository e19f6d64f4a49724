/** Small shared vocabulary: optional values and database keys. */
module Common {

  /** A value that may be absent (JavaScript `null`/`undefined`, Python `None`). */
  datatype Option<+T> = None | Some(value: T) {
    function GetOr(default: T): T {
      match this
      case Some(v) => v
      case None => default
    }
  }

  /** An auto-increment primary key: database keys start at 1, so a key is never falsy. */
  type Id = k: int | 1 <= k witness 1
}
