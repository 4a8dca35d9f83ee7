/** Small failure-compatible wrappers and the byte type shared by every module. */
module Basics {

  /** An octet, as produced by `str.encode()` and consumed by `base64`. */
  type byte = x: int | 0 <= x < 256

  /** A Python value that may be absent: a missing dictionary key, `None`. */
  datatype Option<+T> = None | Some(value: T) {
    function GetOr(default: T): T {
      match this
      case Some(v) => v
      case None => default
    }
  }

  /** The outcome of a step that either succeeds or raises a Python exception
      whose message is `error`. */
  datatype Result<+T> = Ok(value: T) | Err(error: string)

  /** Python truthiness of an optional string: absent, `None` and `""` are falsy. */
  predicate Truthy(s: Option<string>) {
    s.Some? && s.value != ""
  }
}
