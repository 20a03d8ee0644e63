/** Option and Result, the shapes of JavaScript's `null` and of `{ok, error}` replies. */
module Wrappers {

  datatype Option<+T> = None | Some(value: T) {
    function GetOr(default: T): T {
      match this
      case Some(v) => v
      case None => default
    }
  }

  /** `{ok: true, ...}` carries a value, `{ok: false, error}` an error message. */
  datatype Result<+R> = Success(value: R) | Failure(error: string)

  /** JavaScript truthiness of a string that may be null or undefined. */
  predicate Truthy(o: Option<string>) {
    o.Some? && o.value != ""
  }
}
