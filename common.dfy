/**
 * Value wrappers shared by every service model: an optional value (a JavaScript
 * `undefined`/`null`, a missing row, a failed remote call) and the identifiers
 * the services exchange.
 */
module Common {

  /** A value that may be absent. */
  datatype Option<+T> = None | Some(value: T) {
    function GetOr(default: T): (r: T)
      ensures Some? ==> r == value
      ensures None? ==> r == default
    {
      match this
      case Some(v) => v
      case None => default
    }
  }

  /** Row and document identifiers (UUIDs, Mongo ObjectIds) as opaque text. */
  type Id = string

  /**
   * JavaScript truthiness of an optional string: `undefined`, `null` and the
   * empty string are falsy.
   */
  predicate Truthy(o: Option<string>) {
    o.Some? && o.value != ""
  }

  /** `x || null` for an optional string. */
  function OrNull(o: Option<string>): (r: Option<string>)
    ensures Truthy(o) ==> r == o
    ensures !Truthy(o) ==> r == None
  {
    if Truthy(o) then o else None
  }

  /**
   * The position of the first element satisfying p: Mongo's `findOne` in
   * natural order, `Array.prototype.find` and `findIndex`.
   */
  function FirstWhere<T>(s: seq<T>, p: T -> bool): (r: Option<nat>)
    ensures r.Some? ==> r.value < |s| && p(s[r.value]) && forall j :: 0 <= j < r.value ==> !p(s[j])
    ensures r.None? <==> forall j :: 0 <= j < |s| ==> !p(s[j])
  {
    if |s| == 0 then None
    else if p(s[0]) then Some(0)
    else match FirstWhere(s[1..], p)
      case None => None
      case Some(k) => Some(k + 1)
  }

  /** A first match stays the first match when the sequence changes only at or after it. */
  lemma FirstStaysFirst<T>(s: seq<T>, s': seq<T>, p: T -> bool, k: nat)
    requires k < |s'| && p(s'[k])
    requires forall j :: 0 <= j < k ==> j < |s| && s'[j] == s[j] && !p(s[j])
    ensures FirstWhere(s', p) == Some(k)
  {
  }
}
