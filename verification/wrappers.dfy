/** Optional values: the model's stand-in for JavaScript's `null` and `undefined`. */
module Wrappers {

  /** `None` is a nullish value (`null` or `undefined`); `Some(v)` is a present value. */
  datatype Option<+T> = None | Some(value: T) {

    /** The value, or `default` when nullish. */
    function GetOr(default: T): T {
      match this
      case Some(v) => v
      case None => default
    }
  }

  /** JavaScript's nullish-coalescing `a ?? b` on optional operands. */
  function OrElse<T>(a: Option<T>, b: Option<T>): Option<T> {
    if a.Some? then a else b
  }

  /** Lookup in a map, `None` when the key is absent. */
  function Get<K, V>(m: map<K, V>, k: K): Option<V> {
    if k in m then Some(m[k]) else None
  }
}
