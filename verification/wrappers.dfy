/** Failure-carrying datatypes shared by every module of the model. */
module Wrappers {

  /** A value that may be absent: JavaScript's `undefined` / `null`. */
  datatype Option<+T> = None | Some(value: T) {

    /** The wrapped value, or `default` when absent. */
    function GetOr(default: T): T {
      match this
      case Some(v) => v
      case None => default
    }
  }

  /** The outcome of a call that either returns a value or throws an error. */
  datatype Result<+R, +E> = Ok(value: R) | Err(error: E)

  /**
   * A value thrown by JavaScript code: an `Error` instance (which carries a
   * message) or any other value (which does not).
   */
  datatype Thrown = ErrorObject(message: string) | NonError

  /** `e instanceof Error ? e.message : fallback`, the idiom every catch block uses. */
  function MessageOr(t: Thrown, fallback: string): (m: string)
    ensures t.ErrorObject? ==> m == t.message
    ensures t.NonError? ==> m == fallback
  {
    match t
    case ErrorObject(msg) => msg
    case NonError => fallback
  }

  /** JavaScript truthiness of an optional string: present and non-empty. */
  predicate Truthy(s: Option<string>) {
    s.Some? && s.value != ""
  }

  /** `s || fallback` for an optional string. */
  function OrElse(s: Option<string>, fallback: string): (r: string)
    ensures Truthy(s) ==> r == s.value
    ensures !Truthy(s) ==> r == fallback
  {
    if Truthy(s) then s.value else fallback
  }
}
