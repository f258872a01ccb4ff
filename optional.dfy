/** An optional value: a key that may be absent from a fetched record. */
module Optional {

  datatype Option<+T> = None | Some(value: T) {

    /** The value if present, else the given default (Python's `dict.get(key, default)`). */
    function GetOr(default: T): T {
      match this
      case Some(v) => v
      case None => default
    }
  }
}
