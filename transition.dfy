/**
 * The transition rule of the emotion-coaching chatbot
 * (EmotionChatbotResponseGenerator.calc_next_state_info).
 *
 * Every summarizer is an LLM call; here it is an oracle `run` that maps an
 * invocation (which summarizer, on which dialogue window, with which context
 * parameters) to the decision record it returns, as the dict of its
 * `model_dump()`. The rule returns the outcome together with the sequence of
 * invocations it made, so that "which summarizers ran" can be stated.
 */
module Transition {
  import opened Common

  datatype Summarizer =
    | HelpSummarizer | ExploreSummarizer | LabelSummarizer
    | FindSummarizer | RecordSummarizer | ShareSummarizer

  /** The context parameters a summarizer receives with the dialogue window. */
  datatype Context =
    | HelpParams                                                  // help.summarizer_params
    | ExploreParams                                               // explore.summarizer_params
    | LabelParams(keyEpisode: Value, userEmotion: Value)          // LabelDialogueSummarizerParams
    | EpisodeParams(keyEpisode: Value, identifiedEmotions: Value) // FindDialogueSummarizerParams

  datatype Invocation = Invocation(summarizer: Summarizer, window: seq<Turn>, context: Context)

  /** What each summarizer answers, as the dict of its decision record. */
  type Oracle = Invocation -> Payload

  /** The `(next phase or None, payload or None)` pair the rule returns. */
  datatype NextState = NextState(phase: Option<Phase>, payload: Option<Payload>)

  /** The rule's outcome (None, a NextState, or a failure) and the summarizers it ran, in order. */
  datatype Step = Step(outcome: Result<Option<NextState>>, invoked: seq<Invocation>)

  function HelpCall(dialog: seq<Turn>): Invocation
  {
    Invocation(HelpSummarizer, dialog, HelpParams)
  }

  /** The sensitive-topic check flags the dialogue (`sensitive_topic is True`). */
  predicate Sensitive(dialog: seq<Turn>, run: Oracle)
  {
    StrictTrue(Get(run(HelpCall(dialog)), "sensitive_topic"))
  }

  /** `_get_memoized_payload(phase)[key]`, which fails when either is absent. */
  function Memoized(memo: Memo, phase: Phase, key: string): Result<Value>
  {
    if phase in memo && key in memo[phase] then Ok(memo[phase][key]) else Err(MissingContext(key))
  }

  /** The turn predicate of the Share rule: `get_nested_value(metadata, "new_episode_requested") == True`. */
  predicate NewEpisodeRequested(t: Turn)
  {
    LooseTrue(Get(t.metadata, "new_episode_requested"))
  }

  /** `find_last_turn` with that predicate: the index of the last flagged turn, or -1. */
  function LastFlagged(dialog: seq<Turn>): (i: int)
    ensures -1 <= i < |dialog|
    ensures i >= 0 ==> NewEpisodeRequested(dialog[i])
    ensures forall j :: i < j < |dialog| ==> !NewEpisodeRequested(dialog[j])
  {
    if |dialog| == 0 then -1
    else if NewEpisodeRequested(dialog[|dialog| - 1]) then |dialog| - 1
    else LastFlagged(dialog[..|dialog| - 1])
  }

  /** The summarizer each phase consults. */
  function PhaseSummarizer(p: Phase): Summarizer
  {
    match p
    case Explore => ExploreSummarizer
    case Label => LabelSummarizer
    case Find => FindSummarizer
    case Record => RecordSummarizer
    case Share => ShareSummarizer
    case Help => HelpSummarizer
  }

  /**
   * The state diagram of the design: Help is reachable from everywhere;
   * otherwise Explore -> Label -> Find | Record -> Share -> Explore.
   */
  predicate Edge(from: Phase, to: Phase)
  {
    || to == Help
    || (from == Explore && to == Label)
    || (from == Label && (to == Find || to == Record))
    || ((from == Find || from == Record) && to == Share)
    || (from == Share && to == Explore)
  }

  /**
   * What a returned pair may be: a switch along an edge of the diagram, with
   * no payload exactly when the target is Help; or staying in a phase that
   * summarizes, with the decision record as guidance.
   */
  predicate Allowed(current: Phase, ns: NextState)
  {
    match ns.phase
    case Some(next) => Edge(current, next) && (ns.payload.None? <==> next == Help)
    case None => ns.payload.Some? && current in {Explore, Label, Find, Record}
  }

  const Revisited: Payload := map["revisited" := Bool(true)]

  /**
   * What one phase's part of the rule may do: run at most the phase's own
   * summarizer, return a pair that follows the diagram, and fail only on a
   * missing memoized payload in a phase that reads one.
   */
  predicate Shaped(current: Phase, rest: Step)
  {
    && |rest.invoked| <= 1
    && (rest.invoked != [] ==> rest.invoked[0].summarizer == PhaseSummarizer(current) != HelpSummarizer)
    && (rest.outcome.Ok? && rest.outcome.value.Some? ==> Allowed(current, rest.outcome.value.value))
    && (rest.outcome.Err? ==> rest.outcome.failure.MissingContext? && current in {Label, Find, Record, Share})
  }

  /** The phase-specific part of the rule, run once the sensitive-topic check has passed. */
  function PhaseRule(current: Phase, dialog: seq<Turn>, aiTurns: nat, memo: Memo, run: Oracle): (rest: Step)
    ensures Shaped(current, rest)
  {
    match current
    case Explore => ExploreStep(dialog, aiTurns, run)
    case Label => LabelStep(dialog, aiTurns, memo, run)
    case Find => EpisodeRule(current, dialog, aiTurns, memo, run)
    case Record => EpisodeRule(current, dialog, aiTurns, memo, run)
    case Share => ShareStep(dialog, memo, run)
    case Help => Step(Ok(None), [])
  }

  /** Explore asks its summarizer once the phase has produced two AI turns. */
  function ExploreStep(dialog: seq<Turn>, aiTurns: nat, run: Oracle): (rest: Step)
    ensures Shaped(Explore, rest)
    ensures rest.outcome.Ok? && (rest.outcome.value.None? <==> aiTurns < 2)
  {
    if aiTurns >= 2 then
      var call := Invocation(ExploreSummarizer, dialog, ExploreParams);
      var rec := run(call);
      if StrictTrue(Get(rec, "move_to_next")) then Step(Ok(Some(NextState(Some(Label), Some(rec)))), [call])
      else Step(Ok(Some(NextState(None, Some(rec)))), [call])
    else Step(Ok(None), [])
  }

  /** Label reads the memoized key episode and user emotion, then follows the summarizer's `next_phase`. */
  function LabelStep(dialog: seq<Turn>, aiTurns: nat, memo: Memo, run: Oracle): (rest: Step)
    ensures Shaped(Label, rest)
    ensures rest.outcome.Err? <==> rest.invoked == []
  {
    var keyEpisode := Memoized(memo, Explore, "key_episode");
    var userEmotion := Memoized(memo, Explore, "user_emotion");
    if keyEpisode.Err? then Step(Err(keyEpisode.failure), [])
    else if userEmotion.Err? then Step(Err(userEmotion.failure), [])
    else
      var call := Invocation(LabelSummarizer, dialog, LabelParams(keyEpisode.value, userEmotion.value));
      var rec := run(call);
      var nextPhase := Get(rec, "next_phase");
      if nextPhase == Str("find") then
        Step(Ok(if aiTurns >= 3 then Some(NextState(Some(Find), Some(rec))) else None), [call])
      else if nextPhase == Str("record") then
        Step(Ok(if aiTurns >= 3 then Some(NextState(Some(Record), Some(rec))) else None), [call])
      else Step(Ok(Some(NextState(None, Some(rec)))), [call])
  }

  /** Share looks for the last turn that asked for a new episode and, if the user answered it, asks the Share summarizer. */
  function ShareStep(dialog: seq<Turn>, memo: Memo, run: Oracle): (rest: Step)
    ensures Shaped(Share, rest)
    ensures rest.outcome.Ok? && rest.outcome.value.Some? ==> rest.outcome.value.value == NextState(Some(Explore), Some(Revisited))
  {
    var i := LastFlagged(dialog);
    if i != -1 && i < |dialog| - 1 then
      var keyEpisode := Memoized(memo, Explore, "key_episode");
      var emotions := Memoized(memo, Label, "identified_emotions");
      if keyEpisode.Err? then Step(Err(keyEpisode.failure), [])
      else if emotions.Err? then Step(Err(emotions.failure), [])
      else
        var call := Invocation(ShareSummarizer, dialog[i..], EpisodeParams(keyEpisode.value, emotions.value));
        if Truthy(Get(run(call), "share_new_episode")) then Step(Ok(Some(NextState(Some(Explore), Some(Revisited)))), [call])
        else Step(Ok(None), [call])
    else Step(Ok(None), [])
  }

  /** Find and Record share one rule; only their summarizer differs. */
  function EpisodeRule(current: Phase, dialog: seq<Turn>, aiTurns: nat, memo: Memo, run: Oracle): (rest: Step)
    requires current == Find || current == Record
    ensures Shaped(current, rest)
    ensures rest.outcome.Ok? ==> rest.outcome.value.Some? && rest.outcome.value.value.payload.Some?
  {
    var keyEpisode := Memoized(memo, Explore, "key_episode");
    var emotions := Memoized(memo, Label, "identified_emotions");
    if keyEpisode.Err? then Step(Err(keyEpisode.failure), [])
    else if emotions.Err? then Step(Err(emotions.failure), [])
    else
      var call := Invocation(PhaseSummarizer(current), dialog, EpisodeParams(keyEpisode.value, emotions.value));
      var rec := run(call);
      if StrictTrue(Get(rec, "proceed_to_next_phase")) && aiTurns >= 2 then
        Step(Ok(Some(NextState(Some(Share), Some(rec)))), [call])
      else Step(Ok(Some(NextState(None, Some(rec)))), [call])
  }

  /**
   * calc_next_state_info: given the current phase, the dialogue, the number
   * of AI turns produced in the current phase and the memoized payloads,
   * decide the next phase and payload.
   */
  function NextStateInfo(current: Phase, dialog: seq<Turn>, aiTurns: nat, memo: Memo, run: Oracle): (s: Step)
    // nothing runs on an empty dialogue; otherwise the sensitive-topic check runs first
    ensures |dialog| == 0 <==> s.invoked == []
    ensures |dialog| > 0 ==> s.invoked[0] == HelpCall(dialog)
    // at most one phase summarizer runs after it, and it is the current phase's own
    ensures |s.invoked| <= 2
    ensures forall k :: 1 <= k < |s.invoked| ==> s.invoked[k].summarizer == PhaseSummarizer(current) != HelpSummarizer
    // every returned pair follows the state diagram
    ensures s.outcome.Ok? && s.outcome.value.Some? ==> Allowed(current, s.outcome.value.value)
    // only a missing memoized payload fails, and only where one is read
    ensures s.outcome.Err? ==> s.outcome.failure.MissingContext? && current in {Label, Find, Record, Share}
  {
    if |dialog| == 0 then Step(Ok(None), [])
    else if Sensitive(dialog, run) then Step(Ok(Some(NextState(Some(Help), None))), [HelpCall(dialog)])
    else
      var rest := PhaseRule(current, dialog, aiTurns, memo, run);
      assert rest.invoked != [] ==> ([HelpCall(dialog)] + rest.invoked)[1] == rest.invoked[0];
      Step(rest.outcome, [HelpCall(dialog)] + rest.invoked)
  }

  // ---------------------------------------------------------------------
  // The rule, phase by phase

  /** Past the sensitive-topic check, the outcome is the phase rule's. */
  lemma NextStateInfoUnfolds(current: Phase, dialog: seq<Turn>, aiTurns: nat, memo: Memo, run: Oracle)
    requires |dialog| > 0 && !Sensitive(dialog, run)
    ensures var rest := PhaseRule(current, dialog, aiTurns, memo, run);
      NextStateInfo(current, dialog, aiTurns, memo, run) == Step(rest.outcome, [HelpCall(dialog)] + rest.invoked)
  {
  }

  lemma EmptyDialogueYieldsNone(current: Phase, aiTurns: nat, memo: Memo, run: Oracle)
    ensures NextStateInfo(current, [], aiTurns, memo, run) == Step(Ok(None), [])
  {
  }

  lemma SensitiveTopicGoesToHelp(current: Phase, dialog: seq<Turn>, aiTurns: nat, memo: Memo, run: Oracle)
    requires |dialog| > 0
    ensures var s := NextStateInfo(current, dialog, aiTurns, memo, run);
      (s.outcome == Ok(Some(NextState(Some(Help), None))) <==> Sensitive(dialog, run)) &&
      (Sensitive(dialog, run) ==> s.invoked == [HelpCall(dialog)])
  {
  }

  lemma ExploreRule(dialog: seq<Turn>, aiTurns: nat, memo: Memo, run: Oracle)
    requires |dialog| > 0 && !Sensitive(dialog, run)
    ensures var s := NextStateInfo(Explore, dialog, aiTurns, memo, run);
      var call := Invocation(ExploreSummarizer, dialog, ExploreParams);
      var rec := run(call);
      && (aiTurns < 2 ==> s == Step(Ok(None), [HelpCall(dialog)]))
      && (aiTurns >= 2 ==> s.invoked == [HelpCall(dialog), call])
      && (aiTurns >= 2 && StrictTrue(Get(rec, "move_to_next")) ==> s.outcome == Ok(Some(NextState(Some(Label), Some(rec)))))
      && (aiTurns >= 2 && !StrictTrue(Get(rec, "move_to_next")) ==> s.outcome == Ok(Some(NextState(None, Some(rec)))))
  {
  }

  lemma LabelRule(dialog: seq<Turn>, aiTurns: nat, memo: Memo, run: Oracle)
    requires |dialog| > 0 && !Sensitive(dialog, run)
    ensures var s := NextStateInfo(Label, dialog, aiTurns, memo, run);
      var keyEpisode := Memoized(memo, Explore, "key_episode");
      var userEmotion := Memoized(memo, Explore, "user_emotion");
      && (keyEpisode.Err? || userEmotion.Err? ==> s.outcome.Err? && s.invoked == [HelpCall(dialog)])
      && (keyEpisode.Ok? && userEmotion.Ok? ==>
            var call := Invocation(LabelSummarizer, dialog, LabelParams(keyEpisode.value, userEmotion.value));
            var rec := run(call);
            && s.invoked == [HelpCall(dialog), call]
            && (Get(rec, "next_phase") == Str("find") ==>
                  s.outcome == Ok(if aiTurns >= 3 then Some(NextState(Some(Find), Some(rec))) else None))
            && (Get(rec, "next_phase") == Str("record") ==>
                  s.outcome == Ok(if aiTurns >= 3 then Some(NextState(Some(Record), Some(rec))) else None))
            && (Get(rec, "next_phase") !in {Str("find"), Str("record")} ==>
                  s.outcome == Ok(Some(NextState(None, Some(rec))))))
  {
  }

  lemma FindRecordRule(current: Phase, dialog: seq<Turn>, aiTurns: nat, memo: Memo, run: Oracle)
    requires current == Find || current == Record
    requires |dialog| > 0 && !Sensitive(dialog, run)
    ensures var s := NextStateInfo(current, dialog, aiTurns, memo, run);
      var keyEpisode := Memoized(memo, Explore, "key_episode");
      var emotions := Memoized(memo, Label, "identified_emotions");
      && (keyEpisode.Err? || emotions.Err? ==> s.outcome.Err? && s.invoked == [HelpCall(dialog)])
      && (keyEpisode.Ok? && emotions.Ok? ==>
            var call := Invocation(PhaseSummarizer(current), dialog, EpisodeParams(keyEpisode.value, emotions.value));
            var rec := run(call);
            && s.invoked == [HelpCall(dialog), call]
            && s.outcome == Ok(Some(NextState(
                 if StrictTrue(Get(rec, "proceed_to_next_phase")) && aiTurns >= 2 then Some(Share) else None,
                 Some(rec)))))
  {
  }

  /** The cases of the Share step on its own. */
  lemma ShareStepCases(dialog: seq<Turn>, memo: Memo, run: Oracle)
    ensures var rest := ShareStep(dialog, memo, run);
      var i := LastFlagged(dialog);
      && (i == -1 || i == |dialog| - 1 ==> rest == Step(Ok(None), []))
      && (0 <= i < |dialog| - 1 ==>
            var keyEpisode := Memoized(memo, Explore, "key_episode");
            var emotions := Memoized(memo, Label, "identified_emotions");
            && (keyEpisode.Err? || emotions.Err? ==> rest.outcome.Err? && rest.invoked == [])
            && (keyEpisode.Ok? && emotions.Ok? ==>
                  var call := Invocation(ShareSummarizer, dialog[i..], EpisodeParams(keyEpisode.value, emotions.value));
                  && rest.invoked == [call]
                  && rest.outcome == Ok(if Truthy(Get(run(call), "share_new_episode"))
                                        then Some(NextState(Some(Explore), Some(Revisited))) else None)))
  {
  }

  lemma ShareRule(dialog: seq<Turn>, aiTurns: nat, memo: Memo, run: Oracle)
    requires |dialog| > 0 && !Sensitive(dialog, run)
    ensures var s := NextStateInfo(Share, dialog, aiTurns, memo, run);
      var i := LastFlagged(dialog);
      && (i == -1 || i == |dialog| - 1 ==> s == Step(Ok(None), [HelpCall(dialog)]))
      && (0 <= i < |dialog| - 1 ==>
            var keyEpisode := Memoized(memo, Explore, "key_episode");
            var emotions := Memoized(memo, Label, "identified_emotions");
            && (keyEpisode.Err? || emotions.Err? ==> s.outcome.Err? && s.invoked == [HelpCall(dialog)])
            && (keyEpisode.Ok? && emotions.Ok? ==>
                  var call := Invocation(ShareSummarizer, dialog[i..], EpisodeParams(keyEpisode.value, emotions.value));
                  && s.invoked == [HelpCall(dialog), call]
                  && s.outcome == Ok(if Truthy(Get(run(call), "share_new_episode"))
                                     then Some(NextState(Some(Explore), Some(Revisited))) else None)))
  {
    ShareRuleTrace(dialog, aiTurns, memo, run);
    ShareStepCases(dialog, memo, run);
  }

  /** Past the sensitive-topic check, Share's outcome and trace are ShareStep's, after the help call. */
  lemma ShareRuleTrace(dialog: seq<Turn>, aiTurns: nat, memo: Memo, run: Oracle)
    requires |dialog| > 0 && !Sensitive(dialog, run)
    ensures var s := NextStateInfo(Share, dialog, aiTurns, memo, run);
      var rest := ShareStep(dialog, memo, run);
      && s.outcome == rest.outcome
      && (rest.invoked == [] ==> s.invoked == [HelpCall(dialog)])
      && (|rest.invoked| == 1 ==> s.invoked == [HelpCall(dialog), rest.invoked[0]])
  {
    var rest := ShareStep(dialog, memo, run);
    NextStateInfoUnfolds(Share, dialog, aiTurns, memo, run);
    ShareIsShareStep(dialog, aiTurns, memo, run);
    if |rest.invoked| == 1 {
      assert [HelpCall(dialog)] + rest.invoked == [HelpCall(dialog), rest.invoked[0]];
    }
  }

  lemma ShareIsShareStep(dialog: seq<Turn>, aiTurns: nat, memo: Memo, run: Oracle)
    ensures PhaseRule(Share, dialog, aiTurns, memo, run) == ShareStep(dialog, memo, run)
  {
  }

  /** The only way back to Explore is the Share rule's revisit, with the `{"revisited": True}` payload. */
  lemma ReturnToExploreIsRevisit(current: Phase, dialog: seq<Turn>, aiTurns: nat, memo: Memo, run: Oracle)
    requires var o := NextStateInfo(current, dialog, aiTurns, memo, run).outcome;
      o.Ok? && o.value.Some? && o.value.value.phase == Some(Explore)
    ensures current == Share
    ensures var i := LastFlagged(dialog);
      var s := NextStateInfo(current, dialog, aiTurns, memo, run);
      && 0 <= i < |dialog| - 1
      && NewEpisodeRequested(dialog[i])
      && s.outcome == Ok(Some(NextState(Some(Explore), Some(Revisited))))
      && |s.invoked| == 2 && s.invoked[1].window == dialog[i..]
  {
    var s := NextStateInfo(current, dialog, aiTurns, memo, run);
    assert Allowed(current, s.outcome.value.value);
    assert |dialog| > 0 && !Sensitive(dialog, run);
    NextStateInfoUnfolds(current, dialog, aiTurns, memo, run);
    ShareStepCases(dialog, memo, run);
  }

  /** Help is left only by re-entering Help. */
  lemma HelpIsNeverLeft(dialog: seq<Turn>, aiTurns: nat, memo: Memo, run: Oracle)
    ensures var s := NextStateInfo(Help, dialog, aiTurns, memo, run);
      s.outcome == Ok(None) || s.outcome == Ok(Some(NextState(Some(Help), None)))
  {
  }

  /** Find and Record never drop the decision record: whatever is decided, the record is returned. */
  lemma FindRecordKeepTheRecord(current: Phase, dialog: seq<Turn>, aiTurns: nat, memo: Memo, run: Oracle)
    requires current == Find || current == Record
    requires |dialog| > 0 && !Sensitive(dialog, run)
    ensures var o := NextStateInfo(current, dialog, aiTurns, memo, run).outcome;
      o.Ok? ==> o.value.Some? && o.value.value.payload.Some?
  {
  }

  /** The Label rule drops the record when the summarizer picks a target before the third AI turn. */
  lemma LabelGuardDropsRecord(dialog: seq<Turn>, aiTurns: nat, memo: Memo, run: Oracle)
    requires |dialog| > 0 && !Sensitive(dialog, run) && aiTurns < 3
    requires Memoized(memo, Explore, "key_episode").Ok? && Memoized(memo, Explore, "user_emotion").Ok?
    requires var call := Invocation(LabelSummarizer, dialog,
               LabelParams(Memoized(memo, Explore, "key_episode").value, Memoized(memo, Explore, "user_emotion").value));
             Get(run(call), "next_phase") in {Str("find"), Str("record")}
    ensures NextStateInfo(Label, dialog, aiTurns, memo, run).outcome == Ok(None)
  {
  }
}
