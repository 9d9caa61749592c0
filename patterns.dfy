/**
 * Anchored regular expressions made only of single-character classes, such as
 * `/^\d{10}$/` and the GSTIN pattern: a pattern is a sequence of classes and a
 * string matches when each character falls in the class at its position.
 */
module Patterns {
  import opened Text

  datatype CharClass =
    | Digit            // \d
    | Upper            // [A-Z]
    | UpperOrDigit     // [A-Z\d]
    | Exactly(c: char) // a literal character

  predicate InClass(c: char, k: CharClass) {
    match k
    case Digit => IsDigit(c)
    case Upper => IsAsciiUpper(c)
    case UpperOrDigit => IsAsciiUpper(c) || IsDigit(c)
    case Exactly(l) => c == l
  }

  /** `k{n}`: the class repeated n times. */
  function Repeat(k: CharClass, n: nat): (p: seq<CharClass>)
    ensures |p| == n && forall i :: 0 <= i < n ==> p[i] == k
  {
    if n == 0 then [] else [k] + Repeat(k, n - 1)
  }

  /** `^p$`.test(s), matching one class per character from the left. */
  predicate Matches(p: seq<CharClass>, s: string) {
    if p == [] then s == []
    else s != [] && InClass(s[0], p[0]) && Matches(p[1..], s[1..])
  }

  /** A match consumes the whole string, one character per class. */
  lemma {:induction false} MatchesExactly(p: seq<CharClass>, s: string)
    requires Matches(p, s)
    ensures |s| == |p|
    ensures forall i :: 0 <= i < |s| ==> InClass(s[i], p[i])
  {
    if p != [] {
      MatchesExactly(p[1..], s[1..]);
      forall i | 0 <= i < |s|
        ensures InClass(s[i], p[i])
      {
        if i > 0 {
          assert s[i] == s[1..][i - 1] && p[i] == p[1..][i - 1];
        }
      }
    }
  }

  /** Conversely, a string of the right length with every character in class matches. */
  lemma {:induction false} MatchesWhenInClass(p: seq<CharClass>, s: string)
    requires |s| == |p|
    requires forall i :: 0 <= i < |s| ==> InClass(s[i], p[i])
    ensures Matches(p, s)
  {
    if p != [] {
      forall i | 0 <= i < |s| - 1
        ensures InClass(s[1..][i], p[1..][i])
      {
        assert s[1..][i] == s[i + 1] && p[1..][i] == p[i + 1];
      }
      MatchesWhenInClass(p[1..], s[1..]);
    }
  }
}
