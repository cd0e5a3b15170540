/** Optional values: JavaScript's `undefined`/`null` for an absent field. */
module Wrappers {

  datatype Option<+T> = None | Some(value: T) {

    /** The value if present, `default` otherwise (JavaScript's `v || default`
        for a value that is never falsy when present). */
    function GetOr(default: T): T
    {
      match this
      case Some(v) => v
      case None => default
    }
  }
}
