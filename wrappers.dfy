/** Optional values: a JavaScript `null`/`undefined` field, or a lookup that found nothing. */
module Wrappers {

  datatype Option<+T> = None | Some(value: T) {

    /** The value, or `default` when there is none (JavaScript's `x ?? default`). */
    function GetOr(default: T): T {
      match this
      case Some(v) => v
      case None => default
    }
  }

  /** JavaScript's `Number(x) || 0` on a field that may hold a non-number: a missing,
      unparsable or NaN value (modelled as None) counts as 0. */
  function NumOr0(x: Option<real>): real {
    x.GetOr(0.0)
  }

  /** JavaScript truthiness of a nullable number: null, 0 and NaN are falsy. */
  predicate Truthy(x: Option<real>) {
    x.Some? && x.value != 0.0
  }
}
