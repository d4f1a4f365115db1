/** The optional value used wherever the source has `null`, `undefined` or a
    missing entry, and the handles the browser hands out for timers and frames. */
module Wrappers {

  datatype Option<T> = None | Some(value: T) {

    /** The carried value, or `default` when there is none. */
    function GetOr(default: T): T {
      match this
      case Some(v) => v
      case None => default
    }
  }

  /** JavaScript truthiness of an optional string: present and not empty. */
  predicate Truthy(o: Option<string>) {
    o.Some? && o.value != ""
  }

  /** A handle from `setTimeout`, `setInterval` or `requestAnimationFrame`:
      browsers never return 0, so a stored handle is always truthy. */
  type Handle = n: int | n > 0 witness 1
}
