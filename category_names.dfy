/**
 * Category-name standardisation in the monolith's product handlers: trim,
 * lower-case, split on single spaces, upper-case the first character of each
 * piece, and join the pieces back with single spaces.
 */
module CategoryNames {
  import opened Text

  /** `s.split(' ')`: the pieces between single spaces, empty pieces included. */
  function Split(s: string): (ws: seq<string>)
    ensures |ws| >= 1
    ensures forall i :: 0 <= i < |ws| ==> ' ' !in ws[i]
  {
    if s == [] then [[]]
    else if s[0] == ' ' then [[]] + Split(s[1..])
    else
      var rest := Split(s[1..]);
      [[s[0]] + rest[0]] + rest[1..]
  }

  /** Every piece is made of characters of the string. */
  lemma {:induction false} PiecesOf(s: string, i: nat, c: char)
    requires i < |Split(s)| && c in Split(s)[i]
    ensures c in s
  {
    if s != [] {
      var rest := Split(s[1..]);
      if s[0] == ' ' {
        PiecesOf(s[1..], i - 1, c);
      } else if i == 0 {
        if c != s[0] {
          assert c in rest[0];
          PiecesOf(s[1..], 0, c);
        }
      } else {
        assert Split(s)[i] == rest[i];
        PiecesOf(s[1..], i, c);
      }
    }
  }

  /** `ws.join(' ')`. */
  function Join(ws: seq<string>): (s: string)
  {
    if ws == [] then []
    else if |ws| == 1 then ws[0]
    else ws[0] + " " + Join(ws[1..])
  }

  /** `w.charAt(0).toUpperCase() + w.slice(1)`. */
  function Capitalise(w: string): (r: string)
    ensures |r| == |w|
    ensures w != [] ==> r[0] == UpperChar(w[0]) && r[1..] == w[1..]
  {
    if w == [] then [] else [UpperChar(w[0])] + w[1..]
  }

  function CapitaliseAll(ws: seq<string>): (rs: seq<string>)
    ensures |rs| == |ws| && forall i :: 0 <= i < |ws| ==> rs[i] == Capitalise(ws[i])
  {
    seq(|ws|, i requires 0 <= i < |ws| => Capitalise(ws[i]))
  }

  /** The standardised form of a category name. */
  function Standardise(name: string): (r: string)
  {
    Join(CapitaliseAll(Split(Lower(Trim(name)))))
  }

  /** Splitting and joining again gives back the string. */
  lemma {:induction false} JoinSplit(s: string)
    ensures Join(Split(s)) == s
  {
    if s != [] {
      JoinSplit(s[1..]);
      var rest := Split(s[1..]);
      if s[0] != ' ' {
        if |rest| == 1 {
          assert Join(Split(s)) == [s[0]] + rest[0];
        } else {
          assert Join(Split(s)) == ([s[0]] + rest[0]) + " " + Join(rest[1..]);
        }
      }
      assert s == [s[0]] + s[1..];
    }
  }

  /** A piece without a space, followed by a space, is split off whole. */
  lemma {:induction false} SplitAfterWord(w: string, rest: string)
    requires ' ' !in w
    ensures Split(w + " " + rest) == [w] + Split(rest)
  {
    if w == [] {
      assert ([] + " " + rest)[1..] == rest;
    } else {
      SplitAfterWord(w[1..], rest);
      assert (w + " " + rest)[1..] == w[1..] + " " + rest;
      assert [w[0]] + w[1..] == w;
    }
  }

  lemma {:induction false} SplitWord(w: string)
    requires ' ' !in w
    ensures Split(w) == [w]
  {
    if w != [] {
      SplitWord(w[1..]);
      assert [w[0]] + w[1..] == w;
    }
  }

  /** Joining pieces that hold no space and splitting again gives back the pieces. */
  lemma {:induction false} SplitJoin(ws: seq<string>)
    requires |ws| >= 1 && forall i :: 0 <= i < |ws| ==> ' ' !in ws[i]
    ensures Split(Join(ws)) == ws
  {
    if |ws| == 1 {
      SplitWord(ws[0]);
    } else {
      SplitJoin(ws[1..]);
      SplitAfterWord(ws[0], Join(ws[1..]));
      assert [ws[0]] + ws[1..] == ws;
    }
  }

  /** Lower-casing commutes with joining. */
  lemma {:induction false} LowerJoin(ws: seq<string>)
    ensures Lower(Join(ws)) == Join(seq(|ws|, i requires 0 <= i < |ws| => Lower(ws[i])))
  {
    var ls := seq(|ws|, i requires 0 <= i < |ws| => Lower(ws[i]));
    if |ws| > 1 {
      LowerJoin(ws[1..]);
      assert ls[1..] == seq(|ws[1..]|, i requires 0 <= i < |ws[1..]| => Lower(ws[1..][i]));
      assert Lower(ws[0] + " " + Join(ws[1..])) == Lower(ws[0]) + " " + Lower(Join(ws[1..]));
    }
  }

  /** A character that lower-casing leaves alone comes back after upper- then lower-casing. */
  lemma LowerUpper(c: char)
    requires LowerChar(c) == c
    ensures LowerChar(UpperChar(c)) == c
  {
  }

  lemma LowerCapitalise(w: string)
    requires Lower(w) == w
    ensures Lower(Capitalise(w)) == w
  {
    if w != [] {
      assert LowerChar(w[0]) == Lower(w)[0];
      LowerUpper(w[0]);
      assert Lower(Capitalise(w)) == [LowerChar(UpperChar(w[0]))] + Lower(w)[1..];
    }
  }

  /** Every piece of a lower-cased string is lower-cased already. */
  lemma PiecesAreLower(t: string, k: nat)
    requires Lower(t) == t && k < |Split(t)|
    ensures Lower(Split(t)[k]) == Split(t)[k]
  {
    var w := Split(t)[k];
    forall i | 0 <= i < |w|
      ensures LowerChar(w[i]) == w[i]
    {
      PiecesOf(t, k, w[i]);
      var j :| 0 <= j < |t| && t[j] == w[i];
      assert LowerChar(t[j]) == Lower(t)[j];
    }
  }

  /**
   * Standardisation changes only letter case: lower-casing the result gives
   * the trimmed, lower-cased name. Its space-separated words are the words
   * of that name, each with the first character upper-cased.
   */
  lemma StandardiseShape(name: string)
    ensures Lower(Standardise(name)) == Lower(Trim(name))
    ensures Split(Standardise(name)) == CapitaliseAll(Split(Lower(Trim(name))))
  {
    StandardiseLower(name);
    var cs := CapitaliseAll(Split(Lower(Trim(name))));
    CapitalisedHaveNoSpace(Split(Lower(Trim(name))));
    SplitJoin(cs);
  }

  /** Lower-casing the standardised name gives the trimmed, lower-cased name. */
  lemma StandardiseLower(name: string)
    ensures Lower(Standardise(name)) == Lower(Trim(name))
  {
    var t := Lower(Trim(name));
    LowerIdempotent(Trim(name));
    var ws := Split(t);
    var cs := CapitaliseAll(ws);
    LowerJoin(cs);
    forall i | 0 <= i < |ws|
      ensures Lower(cs[i]) == ws[i]
    {
      PiecesAreLower(t, i);
      LowerCapitalise(ws[i]);
    }
    assert seq(|cs|, i requires 0 <= i < |cs| => Lower(cs[i])) == ws;
    JoinSplit(t);
  }

  /** Capitalising pieces that hold no space leaves them without a space. */
  lemma CapitalisedHaveNoSpace(ws: seq<string>)
    requires forall i :: 0 <= i < |ws| ==> ' ' !in ws[i]
    ensures forall i :: 0 <= i < |ws| ==> ' ' !in CapitaliseAll(ws)[i]
  {
    var cs := CapitaliseAll(ws);
    forall i | 0 <= i < |cs|
      ensures ' ' !in cs[i]
    {
      forall k | 0 <= k < |cs[i]|
        ensures cs[i][k] != ' '
      {
        assert ws[i][k] in ws[i];
        if k > 0 {
          assert cs[i][k] == cs[i][1..][k - 1] == ws[i][k];
        }
      }
    }
  }

  /** A string whose lower-cased form has no surrounding whitespace has none itself. */
  lemma TrimmedOnceLowered(r: string, t: string)
    requires Lower(r) == t
    requires t == [] || (!IsJsSpace(t[0]) && !IsJsSpace(t[|t| - 1]))
    ensures Trim(r) == r
  {
    if r != [] {
      assert t[0] == LowerChar(r[0]) && t[|t| - 1] == LowerChar(r[|r| - 1]);
      LowerKeepsSpaces(r[0]);
      LowerKeepsSpaces(r[|r| - 1]);
    }
    TrimmedIsFixed(r);
  }

  /** The trimmed, lower-cased name has no surrounding whitespace. */
  lemma LoweredTrimIsTrimmed(name: string)
    ensures var t := Lower(Trim(name));
      t == [] || (!IsJsSpace(t[0]) && !IsJsSpace(t[|t| - 1]))
  {
    var u := Trim(name);
    if u != [] {
      LowerKeepsSpaces(u[0]);
      LowerKeepsSpaces(u[|u| - 1]);
      assert Lower(u)[0] == LowerChar(u[0]) && Lower(u)[|u| - 1] == LowerChar(u[|u| - 1]);
    }
  }

  /** Standardising a standardised name changes nothing. */
  lemma StandardiseIdempotent(name: string)
    ensures Standardise(Standardise(name)) == Standardise(name)
  {
    var r := Standardise(name);
    StandardiseShape(name);
    LoweredTrimIsTrimmed(name);
    TrimmedOnceLowered(r, Lower(Trim(name)));
    assert Lower(Trim(r)) == Lower(Trim(name));
  }
}
