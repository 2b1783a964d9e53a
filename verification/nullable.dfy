/** A column value that may be SQL NULL (or a pandas NaT/NaN, which the query
    engine reads as NULL). */
module Nullable {

  datatype Option<+T> = None | Some(value: T) {

    /** COALESCE(this, default): the value when present, the default otherwise. */
    function GetOr(default: T): T
    {
      match this
      case Some(v) => v
      case None => default
    }
  }
}
