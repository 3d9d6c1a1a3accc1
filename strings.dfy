/**
 * String operations the chatbot's code relies on, with the facts about them
 * that the phase modules and the chat page use: Python's `str.replace`, the
 * `", ".join` of a list, its inverse `str.split`, and the absence of an
 * adjacent character pair.
 */
module Strings {

  /** `s` holds the character `a` immediately followed by `b`. */
  predicate HasPair(s: string, a: char, b: char)
  {
    exists i :: 0 <= i < |s| - 1 && s[i] == a && s[i + 1] == b
  }

  /** A pair in a concatenation lies in one part or straddles the seam. */
  lemma HasPairConcat(x: string, y: string, a: char, b: char)
    ensures HasPair(x + y, a, b) <==>
      HasPair(x, a, b) || HasPair(y, a, b) || (|x| > 0 && |y| > 0 && x[|x| - 1] == a && y[0] == b)
  {
    var s := x + y;
    if HasPair(s, a, b) {
      var i :| 0 <= i < |s| - 1 && s[i] == a && s[i + 1] == b;
      if i < |x| - 1 {
        assert x[i] == a && x[i + 1] == b;
      } else if i >= |x| {
        assert y[i - |x|] == a && y[i - |x| + 1] == b;
      }
    }
    if HasPair(x, a, b) {
      var i :| 0 <= i < |x| - 1 && x[i] == a && x[i + 1] == b;
      assert s[i] == a && s[i + 1] == b;
    }
    if HasPair(y, a, b) {
      var i :| 0 <= i < |y| - 1 && y[i] == a && y[i + 1] == b;
      assert s[|x| + i] == a && s[|x| + i + 1] == b;
    }
    if |x| > 0 && |y| > 0 && x[|x| - 1] == a && y[0] == b {
      assert s[|x| - 1] == a && s[|x|] == b;
    }
  }

  /** A string without the character `a` has no pair starting with `a`. */
  lemma NoPairWithout(s: string, a: char, b: char)
    requires a !in s
    ensures !HasPair(s, a, b)
  {
    forall i | 0 <= i < |s| - 1
      ensures s[i] != a
    {
      assert s[i] in s;
    }
  }

  /**
   * Python `s.replace(pat, rep)` for a non-empty pattern: scanning from the
   * left, every occurrence of `pat` that does not overlap an earlier
   * replaced one becomes `rep`.
   */
  function ReplaceAll(s: string, pat: string, rep: string): string
    requires |pat| > 0
    decreases |s|
  {
    if |s| < |pat| then s
    else if s[..|pat|] == pat then rep + ReplaceAll(s[|pat|..], pat, rep)
    else [s[0]] + ReplaceAll(s[1..], pat, rep)
  }

  /** The first character of a replacement result. */
  lemma ReplaceAllHead(s: string, pat: string, rep: string)
    requires |pat| > 0 && |rep| > 0 && |s| > 0
    ensures |ReplaceAll(s, pat, rep)| > 0
    ensures ReplaceAll(s, pat, rep)[0] ==
      if |s| >= |pat| && s[..|pat|] == pat then rep[0] else s[0]
  {
  }

  /** An occurrence of the pattern at the front is replaced. */
  lemma ReplaceAllPattern(pat: string, rep: string, t: string)
    requires |pat| > 0
    ensures ReplaceAll(pat + t, pat, rep) == rep + ReplaceAll(t, pat, rep)
  {
    var s := pat + t;
    assert s[..|pat|] == pat;
    assert s[|pat|..] == t;
  }

  /** A prefix that cannot start the pattern passes through unchanged. */
  lemma {:induction false} ReplaceAllPlain(x: string, t: string, pat: string, rep: string)
    requires |pat| > 0 && pat[0] !in x
    ensures ReplaceAll(x + t, pat, rep) == x + ReplaceAll(t, pat, rep)
  {
    if x != [] {
      var s := x + t;
      assert s[0] == x[0];
      assert s[1..] == x[1..] + t;
      if |s| >= |pat| {
        assert s[..|pat|][0] == x[0];
      }
      ReplaceAllPlain(x[1..], t, pat, rep);
      assert [x[0]] + x[1..] == x;
    } else {
      assert x + t == t;
    }
  }

  /**
   * Replacing a two-character pattern by text that holds neither `a` nor `b`
   * leaves no `a` immediately followed by `b`, provided that pair is the
   * pattern itself or did not occur before.
   */
  lemma {:induction false} ReplaceAllLeavesNoPair(s: string, pat: string, rep: string, a: char, b: char)
    requires |pat| == 2 && |rep| > 0 && a !in rep && b !in rep
    requires pat == [a, b] || !HasPair(s, a, b)
    ensures !HasPair(ReplaceAll(s, pat, rep), a, b)
    decreases |s|
  {
    var r := ReplaceAll(s, pat, rep);
    if |s| < 2 {
      assert r == s;
    } else if s[..2] == pat {
      var t := s[2..];
      assert s == s[..2] + t;
      HasPairConcat(s[..2], t, a, b);
      ReplaceAllLeavesNoPair(t, pat, rep, a, b);
      NoPairWithout(rep, a, b);
      HasPairConcat(rep, ReplaceAll(t, pat, rep), a, b);
      assert rep[|rep| - 1] in rep;
    } else {
      var t := s[1..];
      assert s == [s[0]] + t;
      HasPairConcat([s[0]], t, a, b);
      ReplaceAllLeavesNoPair(t, pat, rep, a, b);
      var rt := ReplaceAll(t, pat, rep);
      HasPairConcat([s[0]], rt, a, b);
      if |t| > 0 && s[0] == a {
        ReplaceAllHead(t, pat, rep);
        if |t| >= 2 && t[..2] == pat {
          assert rt[0] == rep[0];
          assert rep[0] in rep;
        } else {
          assert rt[0] == s[1];
          assert s[..2] == [s[0], s[1]];
          assert s[1] != b;
        }
      }
    }
  }

  /** Python `sep.join(items)`. */
  function Join(items: seq<string>, sep: string): string
  {
    if |items| == 0 then ""
    else if |items| == 1 then items[0]
    else items[0] + sep + Join(items[1..], sep)
  }

  /** Python `s.split(sep)` for a non-empty separator. */
  function SplitOn(s: string, sep: string): (pieces: seq<string>)
    requires |sep| > 0
    ensures |pieces| >= 1
    decreases |s|
  {
    if |s| < |sep| then [s]
    else if s[..|sep|] == sep then [""] + SplitOn(s[|sep|..], sep)
    else
      var rest := SplitOn(s[1..], sep);
      [[s[0]] + rest[0]] + rest[1..]
  }

  /** A leading separator closes an empty piece. */
  lemma SplitOnSeparator(sep: string, t: string)
    requires |sep| > 0
    ensures SplitOn(sep + t, sep) == [""] + SplitOn(t, sep)
  {
    var s := sep + t;
    assert s[..|sep|] == sep;
    assert s[|sep|..] == t;
  }

  /** Text that cannot start the separator extends the first piece. */
  lemma {:induction false} SplitOnPlain(x: string, t: string, sep: string)
    requires |sep| > 0 && sep[0] !in x
    ensures SplitOn(x + t, sep) == [x + SplitOn(t, sep)[0]] + SplitOn(t, sep)[1..]
  {
    if x == [] {
      assert x + t == t;
      var p := SplitOn(t, sep);
      assert x + p[0] == p[0];
      assert p == [p[0]] + p[1..];
    } else {
      var s := x + t;
      assert s[0] == x[0];
      assert s[1..] == x[1..] + t;
      if |s| >= |sep| {
        assert s[..|sep|][0] == x[0];
      }
      SplitOnPlain(x[1..], t, sep);
      assert [x[0]] + (x[1..] + SplitOn(t, sep)[0]) == x + SplitOn(t, sep)[0];
    }
  }

  /** Splitting a join gives back the items when no item can start the separator. */
  lemma {:induction false} SplitOnJoin(items: seq<string>, sep: string)
    requires |sep| > 0 && |items| > 0
    requires forall k :: 0 <= k < |items| ==> sep[0] !in items[k]
    ensures SplitOn(Join(items, sep), sep) == items
    decreases |items|
  {
    if |items| == 1 {
      SplitOnPlain(items[0], "", sep);
      assert items[0] + "" == items[0];
    } else {
      var rest := Join(items[1..], sep);
      assert Join(items, sep) == items[0] + (sep + rest);
      SplitOnJoin(items[1..], sep);
      SplitOnSeparator(sep, rest);
      SplitOnPlain(items[0], sep + rest, sep);
      var p := SplitOn(sep + rest, sep);
      assert p == [""] + items[1..];
      assert p[0] == "" && p[1..] == items[1..];
      assert items[0] + "" == items[0];
      assert items == [items[0]] + items[1..];
    }
  }
}
