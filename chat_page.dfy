/**
 * The rules of the chat page that the client applies around the dialogue:
 * normalisation of a typed message before it is sent, whether the typing
 * panel is hidden, what a submission does, and how each message is shown
 * (hidden, offering regeneration, carrying the emotion picker).
 */
module ChatPage {
  import opened Common
  import Strings
  import LabelPhase

  /** A message of the session as the client stores it. */
  datatype Message = Message(id: string, message: string, isUser: bool, metadata: Option<Payload>, timestamp: int)

  /** `m.metadata?.[key] === true`. */
  predicate Flag(m: Message, key: string)
  {
    m.metadata.Some? && key in m.metadata.value && StrictTrue(m.metadata.value[key])
  }

  // ---------------------------------------------------------------------
  // Trimming

  /** The characters `String.prototype.trim` removes: white space and line terminators. */
  predicate IsJsWhitespace(c: char)
  {
    || c == ' ' || c == '\t' || c == '\n' || c == '\r' || c == '\U{000B}' || c == '\U{000C}'
    || c == '\U{00A0}' || c == '\U{FEFF}' || c == '\U{1680}' || ('\U{2000}' <= c <= '\U{200A}')
    || c == '\U{2028}' || c == '\U{2029}' || c == '\U{202F}' || c == '\U{205F}' || c == '\U{3000}'
  }

  /** Leading white space removed. */
  function TrimStart(s: string): (r: string)
    ensures |r| <= |s| && r == s[|s| - |r|..]
    ensures r == "" || !IsJsWhitespace(r[0])
    ensures forall i :: 0 <= i < |s| - |r| ==> IsJsWhitespace(s[i])
  {
    if |s| == 0 || !IsJsWhitespace(s[0]) then s else TrimStart(s[1..])
  }

  /** Trailing white space removed. */
  function TrimEnd(s: string): (r: string)
    ensures |r| <= |s| && r == s[..|r|]
    ensures r == "" || !IsJsWhitespace(r[|r| - 1])
    ensures forall i :: |r| <= i < |s| ==> IsJsWhitespace(s[i])
  {
    if |s| == 0 || !IsJsWhitespace(s[|s| - 1]) then s else TrimEnd(s[..|s| - 1])
  }

  /** Neither end is white space. */
  predicate Trimmed(s: string)
  {
    s == "" || (!IsJsWhitespace(s[0]) && !IsJsWhitespace(s[|s| - 1]))
  }

  function Trim(s: string): (r: string)
    ensures Trimmed(r)
    ensures r == "" <==> forall i :: 0 <= i < |s| ==> IsJsWhitespace(s[i])
  {
    var front := TrimStart(s);
    var r := TrimEnd(front);
    assert r != "" ==> r[0] == front[0];
    BlankIfTrimmedAway(s, front, r);
    r
  }

  lemma BlankIfTrimmedAway(s: string, front: string, r: string)
    requires front == TrimStart(s) && r == TrimEnd(front)
    ensures r == "" ==> forall i :: 0 <= i < |s| ==> IsJsWhitespace(s[i])
  {
    if r == "" {
      assert front == "";
    }
  }

  /** Trimming a trimmed string changes nothing. */
  lemma TrimTrimmed(s: string)
    requires Trimmed(s)
    ensures Trim(s) == s
  {
    if s != "" {
      assert TrimStart(s) == s;
      assert TrimEnd(s) == s;
    }
  }

  // ---------------------------------------------------------------------
  // Collapsing runs (`replace(/ +/g, " ")` and `replace(/[\r\n]+/g, "\n")`)

  /** The two kinds of run the normalisation collapses. */
  datatype Run = Spaces | LineBreaks

  predicate InRun(k: Run, c: char)
  {
    match k
    case Spaces => c == ' '
    case LineBreaks => c == '\r' || c == '\n'
  }

  function Replacement(k: Run): char
  {
    match k
    case Spaces => ' '
    case LineBreaks => '\n'
  }

  /** The rest of `s` after its leading run. */
  function DropRun(k: Run, s: string): (r: string)
    ensures |r| <= |s| && r == s[|s| - |r|..]
    ensures r == "" || !InRun(k, r[0])
    ensures forall i :: 0 <= i < |s| - |r| ==> InRun(k, s[i])
  {
    if |s| == 0 || !InRun(k, s[0]) then s else DropRun(k, s[1..])
  }

  /** No run of length above one, and every run character is the replacement. */
  predicate Collapsed(k: Run, s: string)
  {
    forall i :: 0 <= i < |s| && InRun(k, s[i]) ==>
      s[i] == Replacement(k) && (i + 1 < |s| ==> !InRun(k, s[i + 1]))
  }

  /** Every maximal run replaced by one replacement character. */
  function Collapse(k: Run, s: string): (r: string)
    ensures |r| <= |s|
    ensures r == "" <==> s == ""
    decreases |s|
  {
    if |s| == 0 then ""
    else if InRun(k, s[0]) then [Replacement(k)] + Collapse(k, DropRun(k, s))
    else [s[0]] + Collapse(k, s[1..])
  }

  function Last(s: string): char
    requires s != ""
  {
    s[|s| - 1]
  }

  lemma LastOfCons(c: char, t: string)
    requires t != ""
    ensures Last([c] + t) == Last(t)
  {
  }

  /** The first character survives collapsing, or becomes the replacement when it was in a run. */
  lemma CollapseFirst(k: Run, s: string)
    requires s != ""
    ensures Collapse(k, s)[0] == if InRun(k, s[0]) then Replacement(k) else s[0]
  {
    CollapseUnfolds(k, s);
  }

  /** The last character survives collapsing, or becomes the replacement when it was in a run. */
  lemma {:induction false} CollapseLast(k: Run, s: string)
    requires s != ""
    ensures Last(Collapse(k, s)) == if InRun(k, Last(s)) then Replacement(k) else Last(s)
    decreases |s|
  {
    CollapseUnfolds(k, s);
    if InRun(k, s[0]) {
      var rest := DropRun(k, s);
      if rest == "" {
        assert InRun(k, s[|s| - 1]);
      } else {
        CollapseLast(k, rest);
        assert Last(rest) == Last(s);
        LastOfCons(Replacement(k), Collapse(k, rest));
      }
    } else if |s| > 1 {
      CollapseLast(k, s[1..]);
      assert Last(s[1..]) == Last(s);
      LastOfCons(s[0], Collapse(k, s[1..]));
    }
  }

  /** After collapsing, no run is longer than one character and every run character is the replacement. */
  lemma {:induction false} CollapseRemovesRuns(k: Run, s: string)
    ensures Collapsed(k, Collapse(k, s))
    decreases |s|
  {
    if |s| > 0 {
      CollapseUnfolds(k, s);
      if InRun(k, s[0]) {
        var rest := DropRun(k, s);
        CollapseRemovesRuns(k, rest);
        if rest != "" {
          CollapseFirst(k, rest);
        }
        CollapsedCons(k, Replacement(k), Collapse(k, rest));
      } else {
        CollapseRemovesRuns(k, s[1..]);
        CollapsedCons(k, s[0], Collapse(k, s[1..]));
      }
    }
  }

  /** A character in front of a collapsed string keeps it collapsed when it starts no longer run. */
  lemma CollapsedCons(k: Run, c: char, t: string)
    requires Collapsed(k, t)
    requires InRun(k, c) ==> c == Replacement(k) && (t != "" ==> !InRun(k, t[0]))
    ensures Collapsed(k, [c] + t)
  {
    var s := [c] + t;
    forall i | 1 <= i < |s|
      ensures s[i] == t[i - 1]
    {
    }
  }

  /** A collapsed string is left unchanged. */
  lemma {:induction false} CollapseCollapsed(k: Run, s: string)
    requires Collapsed(k, s)
    ensures Collapse(k, s) == s
    decreases |s|
  {
    if |s| > 0 {
      CollapsedHead(k, s);
      CollapsedTail(k, s);
      CollapseCollapsed(k, s[1..]);
      CollapseUnfolds(k, s);
      assert s == [s[0]] + s[1..];
    }
  }

  /** In a collapsed string a leading run is the single replacement character. */
  lemma CollapsedHead(k: Run, s: string)
    requires |s| > 0 && Collapsed(k, s)
    ensures InRun(k, s[0]) ==> s[0] == Replacement(k) && DropRun(k, s) == s[1..]
  {
    if InRun(k, s[0]) {
      assert 1 < |s| ==> !InRun(k, s[1]);
      assert DropRun(k, s) == DropRun(k, s[1..]);
    }
  }

  /** One step of `Collapse`, for a non-empty string. */
  lemma CollapseUnfolds(k: Run, s: string)
    requires |s| > 0
    ensures InRun(k, s[0]) ==> Collapse(k, s) == [Replacement(k)] + Collapse(k, DropRun(k, s))
    ensures !InRun(k, s[0]) ==> Collapse(k, s) == [s[0]] + Collapse(k, s[1..])
  {
  }

  lemma CollapsedTail(k: Run, s: string)
    requires |s| > 0 && Collapsed(k, s)
    ensures Collapsed(k, s[1..])
  {
    forall i | 0 <= i < |s| - 1 && InRun(k, s[1..][i])
      ensures s[1..][i] == Replacement(k) && (i + 1 < |s| - 1 ==> !InRun(k, s[1..][i + 1]))
    {
      assert s[1..][i] == s[i + 1];
    }
  }

  /** The characters outside runs, in order. */
  function Others(k: Run, s: string): string
  {
    if |s| == 0 then "" else (if InRun(k, s[0]) then "" else [s[0]]) + Others(k, s[1..])
  }

  /** Collapsing changes only run characters: the others survive, in order. */
  lemma {:induction false} CollapseKeepsOthers(k: Run, s: string)
    ensures Others(k, Collapse(k, s)) == Others(k, s)
    decreases |s|
  {
    if |s| > 0 {
      var r := Collapse(k, s);
      if InRun(k, s[0]) {
        var rest := DropRun(k, s);
        DropRunKeepsOthers(k, s);
        CollapseKeepsOthers(k, rest);
        assert r[1..] == Collapse(k, rest);
      } else {
        CollapseKeepsOthers(k, s[1..]);
        assert r[1..] == Collapse(k, s[1..]);
      }
    }
  }

  lemma {:induction false} DropRunKeepsOthers(k: Run, s: string)
    ensures Others(k, DropRun(k, s)) == Others(k, s)
    decreases |s|
  {
    if |s| > 0 && InRun(k, s[0]) {
      DropRunKeepsOthers(k, s[1..]);
    }
  }

  lemma CollapsedSpaces(s: string)
    ensures Collapsed(Spaces, s) <==> !Strings.HasPair(s, ' ', ' ')
  {
    if !Collapsed(Spaces, s) {
      var i :| 0 <= i < |s| && InRun(Spaces, s[i]) && !(s[i] == ' ' && (i + 1 < |s| ==> !InRun(Spaces, s[i + 1])));
      assert s[i] == ' ' && s[i + 1] == ' ';
    }
  }

  lemma CollapsedLineBreaks(s: string)
    ensures Collapsed(LineBreaks, s) <==> '\r' !in s && !Strings.HasPair(s, '\n', '\n')
  {
    if !Collapsed(LineBreaks, s) {
      var i :| 0 <= i < |s| && InRun(LineBreaks, s[i]) &&
        !(s[i] == '\n' && (i + 1 < |s| ==> !InRun(LineBreaks, s[i + 1])));
      if s[i] == '\r' {
        assert s[i] in s;
      } else {
        assert s[i + 1] in s;
        assert s[i + 1] == '\r' || Strings.HasPair(s, '\n', '\n');
      }
    }
  }

  /** Collapsing line breaks cannot bring two spaces together. */
  lemma {:induction false} LineBreaksKeepSpacesApart(s: string)
    requires !Strings.HasPair(s, ' ', ' ')
    ensures !Strings.HasPair(Collapse(LineBreaks, s), ' ', ' ')
    decreases |s|
  {
    if |s| > 0 {
      CollapseUnfolds(LineBreaks, s);
      if InRun(LineBreaks, s[0]) {
        var rest := DropRun(LineBreaks, s);
        NoPairInSuffix(s, |s| - |rest|, ' ', ' ');
        LineBreaksKeepSpacesApart(rest);
        NoPairInCons('\n', Collapse(LineBreaks, rest), ' ', ' ');
      } else {
        assert |s| > 1 && s[0] == ' ' ==> s[1] != ' ';
        if |s| > 1 {
          CollapseFirst(LineBreaks, s[1..]);
        }
        NoPairInSuffix(s, 1, ' ', ' ');
        LineBreaksKeepSpacesApart(s[1..]);
        NoPairInCons(s[0], Collapse(LineBreaks, s[1..]), ' ', ' ');
      }
    }
  }

  lemma NoPairInSuffix(s: string, k: nat, a: char, b: char)
    requires k <= |s| && !Strings.HasPair(s, a, b)
    ensures !Strings.HasPair(s[k..], a, b)
  {
    forall i | 0 <= i < |s| - k - 1
      ensures !(s[k..][i] == a && s[k..][i + 1] == b)
    {
      assert s[k..][i] == s[k + i] && s[k..][i + 1] == s[k + i + 1];
    }
  }

  lemma NoPairInCons(c: char, t: string, a: char, b: char)
    requires !Strings.HasPair(t, a, b) && !(c == a && t != "" && t[0] == b)
    ensures !Strings.HasPair([c] + t, a, b)
  {
    Strings.HasPairConcat([c], t, a, b);
  }

  // ---------------------------------------------------------------------
  // The message schema

  /**
   * The form schema: trim, collapse space runs to one space and CR/LF runs
   * to one line feed; an empty result fails the `required` test.
   */
  function Normalize(text: string): (r: Result<string>)
    ensures r.Err? <==> forall i :: 0 <= i < |text| ==> IsJsWhitespace(text[i])
    ensures r.Err? ==> r.failure.ValidationError?
    ensures r.Ok? ==> r.value != "" && Trimmed(r.value)
    ensures r.Ok? ==> !Strings.HasPair(r.value, ' ', ' ')
    ensures r.Ok? ==> '\r' !in r.value && !Strings.HasPair(r.value, '\n', '\n')
  {
    var t := Trim(text);
    if t == "" then Err(ValidationError("message is a required field"))
    else
      var r := Collapse(LineBreaks, Collapse(Spaces, t));
      CollapsesKeepTrimmed(t);
      CollapsesRemoveRuns(t);
      Ok(r)
  }

  lemma CollapseKeepsTrimmed(k: Run, s: string)
    requires s != "" && Trimmed(s)
    ensures Trimmed(Collapse(k, s))
  {
    CollapseFirst(k, s);
    CollapseLast(k, s);
  }

  lemma CollapsesKeepTrimmed(t: string)
    requires t != "" && Trimmed(t)
    ensures Trimmed(Collapse(LineBreaks, Collapse(Spaces, t)))
  {
    CollapseKeepsTrimmed(Spaces, t);
    CollapseKeepsTrimmed(LineBreaks, Collapse(Spaces, t));
  }

  lemma CollapsesRemoveRuns(t: string)
    ensures var r := Collapse(LineBreaks, Collapse(Spaces, t));
      !Strings.HasPair(r, ' ', ' ') && '\r' !in r && !Strings.HasPair(r, '\n', '\n')
  {
    var spaced := Collapse(Spaces, t);
    CollapseRemovesRuns(Spaces, t);
    CollapsedSpaces(spaced);
    LineBreaksKeepSpacesApart(spaced);
    CollapseRemovesRuns(LineBreaks, spaced);
    CollapsedLineBreaks(Collapse(LineBreaks, spaced));
  }

  /** A whole run collapses to the one replacement character. */
  lemma CollapseRun(k: Run, s: string)
    requires s != ""
    requires forall i :: 0 <= i < |s| ==> InRun(k, s[i])
    ensures Collapse(k, s) == [Replacement(k)]
  {
    CollapseUnfolds(k, s);
    assert DropRun(k, s) == "";
  }

  /** A string without run characters is left as it is. */
  lemma CollapseFree(k: Run, s: string)
    requires forall i :: 0 <= i < |s| ==> !InRun(k, s[i])
    ensures Collapse(k, s) == s
  {
    CollapseCollapsed(k, s);
  }

  /**
   * Collapsing works piece by piece as long as no run straddles the cut:
   * together with CollapseRun and CollapseFree this pins `Collapse` down on
   * every string, one maximal run or other character at a time.
   */
  lemma {:induction false} CollapseAppend(k: Run, x: string, y: string)
    requires x == "" || y == "" || !InRun(k, Last(x)) || !InRun(k, y[0])
    ensures Collapse(k, x + y) == Collapse(k, x) + Collapse(k, y)
    decreases |x|, 1
  {
    if x == "" {
      assert x + y == y;
    } else if y == "" {
      assert x + y == x;
    } else if !InRun(k, x[0]) {
      CollapseAppendOther(k, x, y);
    } else if DropRun(k, x) == "" {
      CollapseAppendWholeRun(k, x, y);
    } else {
      CollapseAppendRun(k, x, y);
    }
  }

  /** `x` starts with a character outside any run: it is kept, and the rest of `x` is appended. */
  lemma {:induction false} CollapseAppendOther(k: Run, x: string, y: string)
    requires x != "" && y != "" && !InRun(k, x[0])
    requires !InRun(k, Last(x)) || !InRun(k, y[0])
    ensures Collapse(k, x + y) == Collapse(k, x) + Collapse(k, y)
    decreases |x|, 0
  {
    assert (x + y)[0] == x[0];
    assert (x + y)[1..] == x[1..] + y;
    CollapseKeepsHead(k, x);
    CollapseKeepsHead(k, x + y);
    assert x[1..] != "" ==> Last(x[1..]) == Last(x);
    CollapseAppend(k, x[1..], y);
    calc {
      Collapse(k, x + y);
      [x[0]] + Collapse(k, x[1..] + y);
      [x[0]] + (Collapse(k, x[1..]) + Collapse(k, y));
      { SeqAssoc([x[0]], Collapse(k, x[1..]), Collapse(k, y)); }
      ([x[0]] + Collapse(k, x[1..])) + Collapse(k, y);
      Collapse(k, x) + Collapse(k, y);
    }
  }

  lemma SeqAssoc(a: string, b: string, c: string)
    ensures a + (b + c) == (a + b) + c
  {
  }

  /** A first character outside any run is kept. */
  lemma CollapseKeepsHead(k: Run, s: string)
    requires s != "" && !InRun(k, s[0])
    ensures Collapse(k, s) == [s[0]] + Collapse(k, s[1..])
  {
  }

  /** `x` is one whole run: `y` cannot continue it, so it collapses on its own. */
  lemma CollapseAppendWholeRun(k: Run, x: string, y: string)
    requires x != "" && y != "" && InRun(k, x[0]) && DropRun(k, x) == ""
    requires !InRun(k, Last(x)) || !InRun(k, y[0])
    ensures Collapse(k, x + y) == Collapse(k, x) + Collapse(k, y)
  {
    assert InRun(k, x[|x| - 1]);
    DropRunAppend(k, x, y);
    CollapseRun(k, x);
    assert (x + y)[0] == x[0];
    CollapseUnfolds(k, x + y);
    calc {
      Collapse(k, x + y);
      [Replacement(k)] + Collapse(k, DropRun(k, x + y));
      [Replacement(k)] + Collapse(k, y);
      Collapse(k, x) + Collapse(k, y);
    }
  }

  /** `x` starts with a run that ends inside it: the run collapses, and what follows it in `x` is appended. */
  lemma {:induction false} CollapseAppendRun(k: Run, x: string, y: string)
    requires x != "" && y != "" && InRun(k, x[0]) && DropRun(k, x) != ""
    requires !InRun(k, Last(x)) || !InRun(k, y[0])
    ensures Collapse(k, x + y) == Collapse(k, x) + Collapse(k, y)
    decreases |x|, 0
  {
    var d := DropRun(k, x);
    DropRunAppend(k, x, y);
    CollapseUnfolds(k, x);
    CollapseUnfolds(k, x + y);
    assert (x + y)[0] == x[0];
    assert Last(d) == Last(x);
    CollapseAppend(k, d, y);
    calc {
      Collapse(k, x + y);
      [Replacement(k)] + Collapse(k, d + y);
      [Replacement(k)] + (Collapse(k, d) + Collapse(k, y));
      { SeqAssoc([Replacement(k)], Collapse(k, d), Collapse(k, y)); }
      ([Replacement(k)] + Collapse(k, d)) + Collapse(k, y);
      Collapse(k, x) + Collapse(k, y);
    }
  }

  /** The leading run of `x + y` ends inside `x`, or spans all of `x` and stops before `y`. */
  lemma {:induction false} DropRunAppend(k: Run, x: string, y: string)
    requires y == "" || !InRun(k, y[0]) || DropRun(k, x) != ""
    ensures DropRun(k, x) != "" ==> DropRun(k, x + y) == DropRun(k, x) + y
    ensures DropRun(k, x) == "" ==> DropRun(k, x + y) == y
    decreases |x|
  {
    if x == "" {
      assert x + y == y;
    } else if InRun(k, x[0]) {
      assert (x + y)[1..] == x[1..] + y;
      DropRunAppend(k, x[1..], y);
    }
  }

  /** On a non-empty string with no white space at either end, normalising is the two collapses. */
  lemma NormalizeTrimmed(text: string)
    requires text != "" && Trimmed(text)
    ensures Normalize(text) == Ok(Collapse(LineBreaks, Collapse(Spaces, text)))
  {
    TrimTrimmed(text);
  }

  /** `a`, a run of kind `k`, `b`: the run collapses to one replacement character between the words. */
  lemma CollapseBetween(k: Run, a: string, run: string, b: string)
    requires a != "" && b != ""
    requires forall i :: 0 <= i < |a| ==> !InRun(k, a[i])
    requires forall i :: 0 <= i < |b| ==> !InRun(k, b[i])
    requires run != "" && forall i :: 0 <= i < |run| ==> InRun(k, run[i])
    ensures Collapse(k, a + run + b) == a + [Replacement(k)] + b
  {
    CollapseFree(k, a);
    CollapseRun(k, run);
    CollapseFree(k, b);
    CollapseAppend(k, run, b);
    assert Last(a) == a[|a| - 1];
    CollapseAppend(k, a, run + b);
    calc {
      Collapse(k, a + run + b);
      { SeqAssoc(a, run, b); }
      Collapse(k, a + (run + b));
      Collapse(k, a) + Collapse(k, run + b);
      a + ([Replacement(k)] + b);
      { SeqAssoc(a, [Replacement(k)], b); }
      a + [Replacement(k)] + b;
    }
  }

  /** A space run between two words becomes exactly one space. */
  lemma NormalizeSpaceRun(a: string, run: string, b: string)
    requires a != "" && b != ""
    requires forall i :: 0 <= i < |a| ==> !IsJsWhitespace(a[i])
    requires forall i :: 0 <= i < |b| ==> !IsJsWhitespace(b[i])
    requires run != "" && forall i :: 0 <= i < |run| ==> run[i] == ' '
    ensures Normalize(a + run + b) == Ok(a + " " + b)
  {
    var text := a + run + b;
    assert text[0] == a[0] && text[|text| - 1] == b[|b| - 1];
    NormalizeTrimmed(text);
    CollapseBetween(Spaces, a, run, b);
    var r := a + " " + b;
    assert a + [Replacement(Spaces)] + b == r;
    assert forall i :: 0 <= i < |r| ==> r[i] == ' ' || !IsJsWhitespace(r[i]);
    CollapseFree(LineBreaks, r);
  }

  /** A run of carriage returns and line feeds between two words becomes exactly one line feed. */
  lemma NormalizeLineBreakRun(a: string, run: string, b: string)
    requires a != "" && b != ""
    requires forall i :: 0 <= i < |a| ==> !IsJsWhitespace(a[i])
    requires forall i :: 0 <= i < |b| ==> !IsJsWhitespace(b[i])
    requires run != "" && forall i :: 0 <= i < |run| ==> run[i] == '\r' || run[i] == '\n'
    ensures Normalize(a + run + b) == Ok(a + "\n" + b)
  {
    var text := a + run + b;
    assert text[0] == a[0] && text[|text| - 1] == b[|b| - 1];
    NormalizeTrimmed(text);
    assert forall i :: 0 <= i < |text| ==> text[i] != ' ';
    CollapseFree(Spaces, text);
    CollapseBetween(LineBreaks, a, run, b);
    assert a + [Replacement(LineBreaks)] + b == a + "\n" + b;
  }

  /** Normalising a normalised message changes nothing. */
  lemma NormalizeIdempotent(text: string)
    requires Normalize(text).Ok?
    ensures Normalize(Normalize(text).value) == Normalize(text)
  {
    var m := Normalize(text).value;
    TrimTrimmed(m);
    CollapsedSpaces(m);
    CollapseCollapsed(Spaces, m);
    CollapsedLineBreaks(m);
    CollapseCollapsed(LineBreaks, m);
  }

  /** Normalisation keeps every character other than white-space runs, in order. */
  lemma NormalizeKeepsWords(text: string)
    requires Normalize(text).Ok?
    ensures Others(LineBreaks, Others(Spaces, Normalize(text).value)) ==
      Others(LineBreaks, Others(Spaces, Trim(text)))
  {
    var t := Trim(text);
    var spaced := Collapse(Spaces, t);
    CollapseKeepsOthers(Spaces, t);
    CollapseKeepsOthers(LineBreaks, spaced);
    OthersCommute(spaced);
    OthersCommute(Collapse(LineBreaks, spaced));
    CollapseKeepsOthers(LineBreaks, spaced);
  }

  lemma {:induction false} OthersCommute(s: string)
    ensures Others(LineBreaks, Others(Spaces, s)) == Others(Spaces, Others(LineBreaks, s))
    decreases |s|
  {
    if |s| > 0 {
      OthersCommute(s[1..]);
      OthersAppend(Spaces, if InRun(LineBreaks, s[0]) then "" else [s[0]], Others(LineBreaks, s[1..]));
      OthersAppend(LineBreaks, if InRun(Spaces, s[0]) then "" else [s[0]], Others(Spaces, s[1..]));
    }
  }

  lemma {:induction false} OthersAppend(k: Run, a: string, b: string)
    ensures Others(k, a + b) == Others(k, a) + Others(k, b)
    decreases |a|
  {
    if |a| > 0 {
      assert (a + b)[1..] == a[1..] + b;
      OthersAppend(k, a[1..], b);
    } else {
      assert a + b == b;
    }
  }

  // ---------------------------------------------------------------------
  // The typing panel and the message views

  /** The typing panel is hidden while the last message is an AI turn asking for an emotion selection. */
  predicate ShouldHideTypingPanel(messages: seq<Message>)
    ensures ShouldHideTypingPanel(messages) ==>
      messages != [] && Views(messages)[|messages| - 1] in {Hidden, Shown(true, Some(true))}
  {
    |messages| > 0 && !messages[|messages| - 1].isUser && Flag(messages[|messages| - 1], "select_emotion")
  }

  /** An AI turn whose generated text carried the Label phase's emotion-select token. */
  function EmotionSelectTurn(id: string, text: string, timestamp: int): Message
  {
    Message(id, text, false, Some(LabelPhase.TokenMetadata(LabelPhase.LabelTokens, {LabelPhase.EmotionSelect})), timestamp)
  }

  /** Such a turn, when last, hides the typing panel; a user message after it shows it again. */
  lemma EmotionSelectHidesTypingPanel(messages: seq<Message>, id: string, text: string, timestamp: int, reply: Message)
    requires reply.isUser
    ensures ShouldHideTypingPanel(messages + [EmotionSelectTurn(id, text, timestamp)])
    ensures !ShouldHideTypingPanel(messages + [EmotionSelectTurn(id, text, timestamp), reply])
  {
    LabelPhase.EmotionSelectFlagsTurn();
  }

  /** How one message is shown. */
  datatype MessageView =
    | Hidden
    | Shown(regenerateOffered: bool, picker: Option<bool>)   // picker: Some(enabled) when present

  function ViewOf(m: Message, isLast: bool): (v: MessageView)
    ensures v.Hidden? <==> Flag(m, "hide")
    ensures v.Shown? ==> (v.regenerateOffered <==> !m.isUser && isLast)
    ensures v.Shown? ==> (v.picker.Some? <==> Flag(m, "select_emotion"))
    ensures v.Shown? && v.picker.Some? ==> (v.picker.value <==> isLast)
  {
    if Flag(m, "hide") then Hidden
    else Shown(!m.isUser && isLast, if Flag(m, "select_emotion") then Some(isLast) else None)
  }

  /** The views of a message list; only the final message is the last one. */
  function Views(messages: seq<Message>): (vs: seq<MessageView>)
    ensures |vs| == |messages|
    ensures forall i :: 0 <= i < |messages| ==> vs[i] == ViewOf(messages[i], i == |messages| - 1)
  {
    seq(|messages|, i requires 0 <= i < |messages| => ViewOf(messages[i], i == |messages| - 1))
  }

  /** Regeneration is offered at most once, on the last message, and never on a user message. */
  lemma RegenerateOnlyLast(messages: seq<Message>, i: int)
    requires 0 <= i < |messages|
    requires Views(messages)[i].Shown? && Views(messages)[i].regenerateOffered
    ensures i == |messages| - 1 && !messages[i].isUser
  {
  }

  /** Only the last message can carry an enabled picker. */
  lemma PickerEnabledOnlyLast(messages: seq<Message>, i: int)
    requires 0 <= i < |messages|
    requires Views(messages)[i].Shown? && Views(messages)[i].picker == Some(true)
    ensures i == |messages| - 1 && Flag(messages[i], "select_emotion")
  {
  }

  /** When the typing panel is hidden, the last message offers an enabled picker unless it is itself hidden. */
  lemma HiddenPanelLeavesPicker(messages: seq<Message>)
    requires ShouldHideTypingPanel(messages)
    requires !Flag(messages[|messages| - 1], "hide")
    ensures Views(messages)[|messages| - 1] == Shown(true, Some(true))
  {
  }

  // ---------------------------------------------------------------------
  // Submitting the form

  /** The typing panel's state: what the store holds and what the form holds. */
  class ChatState {
    var messages: seq<Message>
    var isLoadingMessage: bool
    var formMessage: string
    /** The messages handed to `sendUserMessage`, in order. */
    var dispatched: seq<Message>

    constructor (messages: seq<Message>, isLoadingMessage: bool)
      ensures this.messages == messages && this.isLoadingMessage == isLoadingMessage
      ensures formMessage == "" && dispatched == []
    {
      this.messages := messages;
      this.isLoadingMessage := isLoadingMessage;
      formMessage := "";
      dispatched := [];
    }

    /**
     * onSubmit: ignored while a system message is loading; otherwise the form
     * is reset and one user message without metadata is dispatched.
     */
    method OnSubmit(message: string, id: string, now: int)
      modifies this
      ensures old(isLoadingMessage) ==> formMessage == old(formMessage) && dispatched == old(dispatched)
      ensures !old(isLoadingMessage) ==> formMessage == "" && dispatched == old(dispatched) + [Message(id, message, true, None, now)]
      ensures messages == old(messages) && isLoadingMessage == old(isLoadingMessage)
    {
      if !isLoadingMessage {
        formMessage := "";
        dispatched := dispatched + [Message(id, message, true, None, now)];
      }
    }

    /** `handleSubmit(onSubmit)`: the schema runs first; only a valid message reaches onSubmit, normalised. */
    method HandleSubmit(id: string, now: int) returns (r: Result<string>)
      modifies this
      ensures r == Normalize(old(formMessage))
      ensures r.Ok? && !old(isLoadingMessage) ==>
        formMessage == "" && dispatched == old(dispatched) + [Message(id, r.value, true, None, now)]
      ensures r.Err? || old(isLoadingMessage) ==> formMessage == old(formMessage) && dispatched == old(dispatched)
      ensures messages == old(messages) && isLoadingMessage == old(isLoadingMessage)
    {
      r := Normalize(formMessage);
      if r.Ok? {
        OnSubmit(r.value, id, now);
      }
    }
  }
}
