/**
 * The Record phase: post-processing of its summarizer's decision record,
 * the guidance its generator template selects from that record, and the
 * positive-emotion listings both of its templates render.
 */
module RecordPhase {
  import opened Common
  import Strings
  import Transition

  // ---------------------------------------------------------------------
  // Post-processing of the summarizer output

  /** The three flags the summarizer reports, in the order they are tested. */
  const AskedKeepingDiary := "asked_user_keeping_diary"
  const ExplainedImportance := "explained_importance_of_recording"
  const ProvidedContent := "reflection_note_content_provided"
  const Flags: seq<string> := [AskedKeepingDiary, ExplainedImportance, ProvidedContent]
  const Proceed := "proceed_to_next_phase"

  /** Every flag is present and equal to True. */
  predicate AllFlagsSet(d: Payload)
  {
    forall k :: k in Flags ==> k in d && LooseTrue(d[k])
  }

  /**
   * The `and` chain raises: some flag is missing, and every flag tested before
   * it was present and equal to True (a false flag stops the evaluation).
   */
  predicate ChainRaises(d: Payload)
  {
    exists i :: 0 <= i < |Flags| && Flags[i] !in d &&
      forall j :: 0 <= j < i ==> Flags[j] in d && LooseTrue(d[Flags[j]])
  }

  /** The chain unrolled over the three flags. */
  lemma ChainCases(d: Payload)
    ensures ChainRaises(d) <==>
      || AskedKeepingDiary !in d
      || (LooseTrue(d[AskedKeepingDiary]) && ExplainedImportance !in d)
      || (LooseTrue(d[AskedKeepingDiary]) && LooseTrue(d[ExplainedImportance]) && ProvidedContent !in d)
    ensures AllFlagsSet(d) <==>
      && AskedKeepingDiary in d && LooseTrue(d[AskedKeepingDiary])
      && ExplainedImportance in d && LooseTrue(d[ExplainedImportance])
      && ProvidedContent in d && LooseTrue(d[ProvidedContent])
  {
    assert Flags[0] == AskedKeepingDiary && Flags[1] == ExplainedImportance && Flags[2] == ProvidedContent;
  }

  /** The output is rejected: not a dict, or a subscript in the chain fails. */
  predicate Malformed(parsed: Value)
  {
    !parsed.Dict? || ChainRaises(parsed.entries)
  }

  /** What post-processing returns for a parsed summarizer output. */
  function Postprocessed(parsed: Value): (r: Result<Payload>)
    ensures r.Err? <==> Malformed(parsed)
    ensures r.Err? ==> r.failure.RegenerateRequest?
    ensures r.Ok? ==> r.value.Keys == parsed.entries.Keys + {Proceed}
    ensures r.Ok? ==> forall k :: k in parsed.entries && k != Proceed ==> r.value[k] == parsed.entries[k]
    ensures r.Ok? ==> r.value[Proceed] == Bool(AllFlagsSet(parsed.entries))
  {
    if !parsed.Dict? then Err(RegenerateRequest("Malformed data."))
    else
      var d := parsed.entries;
      ChainCases(d);
      if AskedKeepingDiary !in d then Err(RegenerateRequest("Malformed data."))
      else if !LooseTrue(d[AskedKeepingDiary]) then Ok(d[Proceed := Bool(false)])
      else if ExplainedImportance !in d then Err(RegenerateRequest("Malformed data."))
      else if !LooseTrue(d[ExplainedImportance]) then Ok(d[Proceed := Bool(false)])
      else if ProvidedContent !in d then Err(RegenerateRequest("Malformed data."))
      else Ok(d[Proceed := Bool(LooseTrue(d[ProvidedContent]))])
  }

  /**
   * _postprocess_chatgpt_output: add the conjunction of the three flags to the
   * parsed dict in place; a failing subscript becomes a regenerate request.
   */
  method PostprocessOutput(parsed: Value) returns (r: Result<Payload>)
    ensures r == Postprocessed(parsed)
  {
    if !parsed.Dict? {
      return Err(RegenerateRequest("Malformed data."));
    }
    var result := parsed.entries;
    var proceed: bool;
    if AskedKeepingDiary !in result {
      return Err(RegenerateRequest("Malformed data."));
    }
    proceed := LooseTrue(result[AskedKeepingDiary]);
    if proceed {
      if ExplainedImportance !in result {
        return Err(RegenerateRequest("Malformed data."));
      }
      proceed := LooseTrue(result[ExplainedImportance]);
    }
    if proceed {
      if ProvidedContent !in result {
        return Err(RegenerateRequest("Malformed data."));
      }
      proceed := LooseTrue(result[ProvidedContent]);
    }
    result := result[Proceed := Bool(proceed)];
    r := Ok(result);
  }

  /** A first flag that is false decides the outcome even when the other two keys are absent. */
  lemma UnaskedDiaryShortCircuits()
    ensures Postprocessed(Dict(map[AskedKeepingDiary := Bool(false)])) ==
      Ok(map[AskedKeepingDiary := Bool(false), Proceed := Bool(false)])
  {
    var d := map[AskedKeepingDiary := Bool(false)];
    assert !ChainRaises(d) by {
      forall i | 0 <= i < |Flags| && Flags[i] !in d
        ensures exists j :: 0 <= j < i && !(Flags[j] in d && LooseTrue(d[Flags[j]]))
      {
        assert i > 0;
        assert Flags[0] == AskedKeepingDiary;
      }
    }
  }

  /** Post-processing its own output gives that output back. */
  lemma PostprocessIdempotent(parsed: Value)
    requires Postprocessed(parsed).Ok?
    ensures Postprocessed(Dict(Postprocessed(parsed).value)) == Postprocessed(parsed)
  {
    var d := parsed.entries;
    var p := Postprocessed(parsed).value;
    assert Proceed !in Flags;
    ChainCases(d);
    ChainCases(p);
    assert p[Proceed := Bool(AllFlagsSet(p))] == p;
  }

  /**
   * When the Record summarizer answers with a post-processed record, the Record
   * phase moves on to Share exactly when all three flags are true and at least
   * two AI turns were produced; otherwise it stays with the record as guidance.
   */
  lemma RecordProceedsIffAllFlags(dialog: seq<Turn>, aiTurns: nat, memo: Memo, run: Transition.Oracle, parsed: Value)
    requires |dialog| > 0 && !Transition.Sensitive(dialog, run)
    requires Transition.Memoized(memo, Explore, "key_episode").Ok?
    requires Transition.Memoized(memo, Label, "identified_emotions").Ok?
    requires var call := Transition.Invocation(Transition.RecordSummarizer, dialog,
               Transition.EpisodeParams(Transition.Memoized(memo, Explore, "key_episode").value,
                                        Transition.Memoized(memo, Label, "identified_emotions").value));
             Postprocessed(parsed) == Ok(run(call))
    ensures var o := Transition.NextStateInfo(Record, dialog, aiTurns, memo, run).outcome;
      o.Ok? && o.value.Some? &&
      (o.value.value.phase == Some(Share) <==> AllFlagsSet(parsed.entries) && aiTurns >= 2)
  {
    Transition.FindRecordRule(Record, dialog, aiTurns, memo, run);
  }

  // ---------------------------------------------------------------------
  // Guidance in the generator template

  /** The three steps of the Record conversation, in order. */
  datatype DiaryStep = AskKeepingDiary | ExplainImportance | ProvideDiaryContent

  /** The `[Guide to the conversation]` block: absent, or present and naming at most one step. */
  datatype Guide = NoGuideBlock | GuideBlock(step: Option<DiaryStep>)

  function Rank(s: DiaryStep): nat
  {
    match s
    case AskKeepingDiary => 0
    case ExplainImportance => 1
    case ProvideDiaryContent => 2
  }

  /** The flag that reports a step done. */
  function FlagOf(s: DiaryStep): string
  {
    Flags[Rank(s)]
  }

  /** Template attribute lookup `v.name` on a dict; anything else is undefined. */
  function Attr(v: Value, name: string): Option<Value>
  {
    if v.Dict? && name in v.entries then Some(v.entries[name]) else None
  }

  /** The template test `x is false`: only the boolean False passes; undefined does not. */
  predicate IsFalse(a: Option<Value>)
  {
    a == Some(Bool(false))
  }

  /** The step whose flag in the summarizer result is literally false. */
  predicate Pending(sr: Value, s: DiaryStep)
  {
    IsFalse(Attr(sr, FlagOf(s)))
  }

  /**
   * The guide block the Record generator renders from its parameters: only
   * when a summarizer result was given, and then the first pending step.
   */
  function Guidance(params: Payload): (g: Guide)
    ensures g.NoGuideBlock? <==> "summarizer_result" !in params
    ensures g.GuideBlock? && g.step.Some? ==> Pending(params["summarizer_result"], g.step.value)
    ensures g.GuideBlock? && g.step.Some? ==>
      forall s :: Rank(s) < Rank(g.step.value) ==> !Pending(params["summarizer_result"], s)
    ensures g.GuideBlock? && g.step.None? ==> forall s :: !Pending(params["summarizer_result"], s)
  {
    if "summarizer_result" !in params then NoGuideBlock
    else
      var sr := params["summarizer_result"];
      if IsFalse(Attr(sr, AskedKeepingDiary)) then GuideBlock(Some(AskKeepingDiary))
      else if IsFalse(Attr(sr, ExplainedImportance)) then GuideBlock(Some(ExplainImportance))
      else if IsFalse(Attr(sr, ProvidedContent)) then GuideBlock(Some(ProvideDiaryContent))
      else GuideBlock(None)
  }

  /** A post-processed record that lets the phase proceed leaves nothing to guide. */
  lemma ProceedingRecordNeedsNoGuide(parsed: Value, params: Payload)
    requires Postprocessed(parsed).Ok? && Postprocessed(parsed).value[Proceed] == Bool(true)
    ensures Guidance(params["summarizer_result" := Dict(Postprocessed(parsed).value)]) == GuideBlock(None)
  {
    var p := Postprocessed(parsed).value;
    assert AllFlagsSet(parsed.entries);
    forall s: DiaryStep
      ensures !Pending(Dict(p), s)
    {
      assert FlagOf(s) in Flags;
    }
  }

  /** A guided step means the post-processed record does not let the phase proceed. */
  lemma GuidedStepBlocksProceeding(parsed: Value, params: Payload)
    requires Postprocessed(parsed).Ok?
    requires Guidance(params["summarizer_result" := Dict(Postprocessed(parsed).value)]).step.Some?
    ensures Postprocessed(parsed).value[Proceed] == Bool(false)
  {
    if Postprocessed(parsed).value[Proceed] == Bool(true) {
      ProceedingRecordNeedsNoGuide(parsed, params);
    }
  }

  /** A flag that is 0 instead of False blocks proceeding, yet no step is named for it. */
  lemma ZeroFlagIsNotGuided()
    ensures var d := map[AskedKeepingDiary := Int(0), ExplainedImportance := Bool(true), ProvidedContent := Bool(true)];
      && Postprocessed(Dict(d)).value[Proceed] == Bool(false)
      && Guidance(map["summarizer_result" := Dict(d)]) == GuideBlock(None)
  {
    var d := map[AskedKeepingDiary := Int(0), ExplainedImportance := Bool(true), ProvidedContent := Bool(true)];
    assert !AllFlagsSet(d) by {
      assert AskedKeepingDiary in Flags;
    }
  }

  // ---------------------------------------------------------------------
  // The positive-emotion filter of both templates

  /** `selectattr("is_positive", "true")` keeps an entry whose `is_positive` is the boolean True. */
  predicate IsPositive(em: Value)
  {
    Attr(em, "is_positive") == Some(Bool(true))
  }

  /** The positive entries of the identified emotions, in their original order. */
  function PositiveEmotions(ems: seq<Value>): (r: seq<Value>)
    ensures |r| <= |ems|
    ensures forall i :: 0 <= i < |r| ==> IsPositive(r[i])
  {
    if |ems| == 0 then []
    else if IsPositive(ems[0]) then [ems[0]] + PositiveEmotions(ems[1..])
    else PositiveEmotions(ems[1..])
  }

  /** Each positive entry is kept as often as it is listed; every other entry is dropped. */
  lemma {:induction false} PositiveEmotionsCounts(ems: seq<Value>)
    ensures forall v :: multiset(PositiveEmotions(ems))[v] == if IsPositive(v) then multiset(ems)[v] else 0
    decreases |ems|
  {
    if |ems| > 0 {
      var rest := PositiveEmotions(ems[1..]);
      PositiveEmotionsCounts(ems[1..]);
      assert ems == [ems[0]] + ems[1..];
      assert multiset(ems) == multiset([ems[0]]) + multiset(ems[1..]);
      if IsPositive(ems[0]) {
        assert multiset([ems[0]] + rest) == multiset([ems[0]]) + multiset(rest);
      }
    }
  }

  /** An entry is kept exactly when it is listed and positive. */
  lemma PositiveEmotionsMembers(ems: seq<Value>)
    ensures forall v :: v in PositiveEmotions(ems) <==> v in ems && IsPositive(v)
  {
    var r := PositiveEmotions(ems);
    PositiveEmotionsCounts(ems);
    forall v
      ensures v in r <==> v in ems && IsPositive(v)
    {
      assert v in r <==> multiset(r)[v] > 0;
      assert v in ems <==> multiset(ems)[v] > 0;
    }
  }

  /** The filter distributes over concatenation, so it keeps the relative order of the entries. */
  lemma {:induction false} PositiveEmotionsAppend(a: seq<Value>, b: seq<Value>)
    ensures PositiveEmotions(a + b) == PositiveEmotions(a) + PositiveEmotions(b)
    decreases |a|
  {
    if |a| == 0 {
      assert a + b == b;
    } else {
      var head := if IsPositive(a[0]) then [a[0]] else [];
      assert (a + b)[0] == a[0];
      assert (a + b)[1..] == a[1..] + b;
      PositiveEmotionsUnfolds(a + b);
      PositiveEmotionsUnfolds(a);
      PositiveEmotionsAppend(a[1..], b);
      calc {
        PositiveEmotions(a + b);
        head + PositiveEmotions(a[1..] + b);
        head + (PositiveEmotions(a[1..]) + PositiveEmotions(b));
        (head + PositiveEmotions(a[1..])) + PositiveEmotions(b);
        PositiveEmotions(a) + PositiveEmotions(b);
      }
    }
  }

  /** One step of the filter. */
  lemma PositiveEmotionsUnfolds(ems: seq<Value>)
    requires |ems| > 0
    ensures PositiveEmotions(ems) == (if IsPositive(ems[0]) then [ems[0]] else []) + PositiveEmotions(ems[1..])
  {
    if !IsPositive(ems[0]) {
      assert [] + PositiveEmotions(ems[1..]) == PositiveEmotions(ems[1..]);
    }
  }

  /** Rendering of a template expression; only text values are modelled, anything else renders empty. */
  function Text(a: Option<Value>): string
  {
    if a.Some? && a.value.Str? then a.value.s else ""
  }

  /** The summarizer's listing: the names of the positive emotions joined by ", ". */
  function SummarizerListing(ems: seq<Value>): (r: string)
    ensures PositiveEmotions(ems) == [] ==> r == ""
    ensures |PositiveEmotions(ems)| == 1 ==> r == Text(Attr(PositiveEmotions(ems)[0], "emotion"))
  {
    Strings.Join(Names(PositiveEmotions(ems)), ", ")
  }

  function Names(ems: seq<Value>): (r: seq<string>)
    ensures |r| == |ems|
    ensures forall i :: 0 <= i < |ems| ==> r[i] == Text(Attr(ems[i], "emotion"))
  {
    if |ems| == 0 then [] else [Text(Attr(ems[0], "emotion"))] + Names(ems[1..])
  }

  /** The listing names every positive emotion and no other entry, in order. */
  lemma SummarizerListingSplits(ems: seq<Value>)
    requires forall i :: 0 <= i < |ems| ==> ',' !in Text(Attr(ems[i], "emotion"))
    requires exists i :: 0 <= i < |ems| && IsPositive(ems[i])
    ensures Strings.SplitOn(SummarizerListing(ems), ", ") == Names(PositiveEmotions(ems))
  {
    var ps := PositiveEmotions(ems);
    PositiveEmotionsMembers(ems);
    var i :| 0 <= i < |ems| && IsPositive(ems[i]);
    assert ems[i] in ems;
    assert ems[i] in ps;
    var names := Names(ps);
    forall k | 0 <= k < |names|
      ensures ", "[0] !in names[k]
    {
      assert ps[k] in ps;
      var j :| 0 <= j < |ems| && ems[j] == ps[k];
    }
    Strings.SplitOnJoin(names, ", ");
  }

  /** One line of the generator's listing as written: the reason is shown as the literal text `(em.reason)`. */
  function LineAsWritten(em: Value): string
  {
    "\n  * " + Text(Attr(em, "emotion")) + " (em.reason)"
  }

  /** One line of the listing as evidently intended: the reason in parentheses. */
  function Line(em: Value): string
  {
    "\n  * " + Text(Attr(em, "emotion")) + " (" + Text(Attr(em, "reason")) + ")"
  }

  function Listing(ems: seq<Value>, line: Value -> string): string
  {
    if |ems| == 0 then "" else line(ems[0]) + Listing(ems[1..], line)
  }

  /** The generator's listing as written. */
  function GeneratorListingAsWritten(ems: seq<Value>): (r: string)
    ensures r == "" <==> PositiveEmotions(ems) == []
  {
    Listing(PositiveEmotions(ems), LineAsWritten)
  }

  /** The generator's listing as evidently intended. */
  function GeneratorListing(ems: seq<Value>): (r: string)
    ensures r == "" <==> PositiveEmotions(ems) == []
  {
    Listing(PositiveEmotions(ems), Line)
  }

  function Emotion(name: string, reason: string): Value
  {
    Dict(map["emotion" := Str(name), "reason" := Str(reason), "is_positive" := Bool(true)])
  }

  /** As written, two emotions that differ only in their reasons render identically. */
  lemma ReasonIsNotRendered(name: string, r1: string, r2: string)
    ensures GeneratorListingAsWritten([Emotion(name, r1)]) == GeneratorListingAsWritten([Emotion(name, r2)])
  {
    assert PositiveEmotions([Emotion(name, r1)]) == [Emotion(name, r1)];
    assert PositiveEmotions([Emotion(name, r2)]) == [Emotion(name, r2)];
  }

  /** With the reason rendered, different reasons give different listings. */
  lemma ReasonIsRendered(name: string, r1: string, r2: string)
    requires r1 != r2
    ensures GeneratorListing([Emotion(name, r1)]) != GeneratorListing([Emotion(name, r2)])
  {
    var e1 := Emotion(name, r1);
    var e2 := Emotion(name, r2);
    assert PositiveEmotions([e1]) == [e1];
    assert PositiveEmotions([e2]) == [e2];
    assert [e1][1..] == [] && [e2][1..] == [];
    assert Attr(e1, "emotion") == Some(Str(name)) && Attr(e1, "reason") == Some(Str(r1));
    assert Attr(e2, "emotion") == Some(Str(name)) && Attr(e2, "reason") == Some(Str(r2));
    var prefix := "\n  * " + name + " (";
    var l1 := GeneratorListing([e1]);
    var l2 := GeneratorListing([e2]);
    assert l1 == Line(e1) + Listing([], Line);
    assert l2 == Line(e2) + Listing([], Line);
    assert l1 == prefix + r1 + ")";
    assert l2 == prefix + r2 + ")";
    assert |l1| == |prefix| + |r1| + 1 && |l2| == |prefix| + |r2| + 1;
    assert l1[|prefix|..|l1| - 1] == r1;
    assert l2[|prefix|..|l2| - 1] == r2;
  }
}
