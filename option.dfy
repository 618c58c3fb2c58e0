/** Optional values: a field the source declares with `?`, or a `null` the store may return. */
module Options {

  datatype Option<+T> = None | Some(value: T) {

    /** `x ?? fallback`. */
    function GetOr(fallback: T): T {
      match this
      case Some(v) => v
      case None => fallback
    }
  }
}
