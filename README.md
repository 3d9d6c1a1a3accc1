# Emotion-coaching chatbot: phase state machine

This project models the core of an emotion-coaching chatbot for children. The conversation moves through six phases:

- Explore: rapport building and finding a key episode.
- Label: naming the emotions about it.
- Find or Record: working through a negative episode, or keeping a diary of a positive one.
- Share: offering to share another episode.
- Help: a sensitive topic came up.

Each turn, LLM-backed summarizers classify the recent dialogue. Their decision records choose the next phase. The records are also memoized and bound into the next phase's generator as instruction parameters.

The Dafny modules follow the source files:

- `common.dfy` (module `Common`): the shared vocabulary.
  - Phases and locales.
  - JSON-like values and dicts.
  - Dialogue turns.
  - The failures the Python code raises.
  - Python's three truth tests: `is True`, `== True` and `if x:`.
- `strings.dfy` (module `Strings`): the string operations the core relies on, with their laws.
  - `str.replace`, `sep.join` and `str.split`.
  - Whether a string contains two given adjacent characters.
- `transition.dfy` (module `Transition`): the transition rule `calc_next_state_info`, as a pure function.
  - Every summarizer is an oracle from an invocation to the record it returns.
  - The rule returns its outcome together with the invocations it made.
- `engine.dfy` (module `ResponseGenerator`): the generator object, as a class.
  - Its fields: current phase, memo, user name, age, locale, and the instruction parameters of the six phase generators.
  - Its methods: construction, `get_generator`, `update_generator`, the locale setter, persistence, and the locale stamp on produced turns.
  - Specification functions for parameter binding and persistence.
- `record.dfy` (module `RecordPhase`): the Record phase.
  - Post-processing of the summarizer output.
  - The guidance chain of the generator template.
  - The `is_positive` filter and the listings that use it.
- `label.dfy` (module `LabelPhase`): the Label phase.
  - The wheel of 16 emotions and the rendered emotion list.
  - The `<:name:>` placeholder rewrite.
  - The emotion-select special token.
  - The emotion types used in the summarizer examples.
- `chat_page.dfy` (module `ChatPage`): the chat page's client-side rules.
  - Message normalisation.
  - The typing-panel predicate.
  - Submission, modelled as a class.
  - The per-message view predicates.

Where the code departs from the documented design, the model follows the code:

- Label: when the summarizer picks `find` or `record` before the third AI turn, the rule returns `None`. The decision record is dropped, not kept as guidance (app/response_generator.py:139-144).
- Record post-processing evaluates `a == True and b == True and c == True` with short-circuiting. A false first flag therefore decides the result even when the other two keys are missing. Only a key reached by the evaluation raises (app/phases/record.py:66).
- Explore consults its summarizer from the second AI turn on. The comment there says "Minimum 3" (app/response_generator.py:115-116).
- The Explore generator receives the revisit flag under the literal key `evisited` (app/response_generator.py:79).
- Binding Explore with a payload that has no `revisited` key raises a KeyError (app/response_generator.py:79-80).
- Binding Label raises a TypeError in two cases: without a payload, or with a payload that already has a `locale` key (app/response_generator.py:82).
- `restore_from_json` assigns the user name before it reads the age. A parcel with a name and no age therefore changes the name and then fails (app/response_generator.py:47-48).
- The Label summarizer's output format lists `"find" | "label" | null`, while its rules and the transition code use `"record"`. The model follows the transition code.

## Model

| member | source | states |
|---|---|---|
| Transition.NextStateInfo | app/response_generator.py:97-181 | An empty dialogue runs no summarizer and yields None. Otherwise the sensitive-topic summarizer runs first on the whole dialogue. At most one more summarizer runs, and it is the current phase's own. Every returned pair follows the state diagram: Help from anywhere, Explore→Label→Find/Record→Share→Explore. A pair has no payload exactly when it goes to Help. Staying put happens only in a summarizing phase, and keeps the record. The only failure is a missing memoized payload, and only in Label, Find, Record and Share. |
| Transition.PhaseRule | app/response_generator.py:113-181 | Past the sensitive-topic check, each phase runs at most its own summarizer, never the help one. Every pair it returns follows the state diagram. It fails only on a missing memoized payload, and only in Label, Find, Record and Share. |
| Transition.ExploreStep | app/response_generator.py:113-123 | Explore never fails, and it returns None exactly when fewer than 2 AI turns have been produced; beyond that, the phase-rule guarantees above. |
| Transition.LabelStep | app/response_generator.py:124-146 | Label fails exactly when it runs no summarizer, that is, when a memoized value is missing; beyond that, the phase-rule guarantees above. |
| Transition.EpisodeRule | app/response_generator.py:147-165 | A successful Find or Record step always returns a pair that carries a payload; beyond that, the phase-rule guarantees above. |
| Transition.ShareStep | app/response_generator.py:166-181 | The only pair Share can return is (Explore, {"revisited": True}); beyond that, the phase-rule guarantees above. |
| Transition.LastFlagged | app/response_generator.py:168 | The index is -1 or the index of a turn whose `new_episode_requested` equals True. No later turn is flagged. |
| Transition.SensitiveTopicGoesToHelp | app/response_generator.py:106-111 | On a non-empty dialogue the outcome is (Help, None) if and only if the help summarizer reports `sensitive_topic is True`. In that case no other summarizer runs. |
| Transition.EmptyDialogueYieldsNone | app/response_generator.py:106-107 | An empty dialogue yields None, and nothing is invoked. |
| Transition.ExploreRule | app/response_generator.py:113-123 | With fewer than 2 AI turns the result is None, and only the help check ran. Otherwise the Explore summarizer runs. Its record goes to Label when `move_to_next is True`, and stays otherwise. |
| Transition.LabelRule | app/response_generator.py:124-146 | A missing memoized key episode or user emotion fails before the summarizer runs. `"find"` or `"record"` moves to Find or Record with the record when there are at least 3 AI turns, and gives None otherwise. Any other `next_phase` stays with the record. |
| Transition.LabelGuardDropsRecord | app/response_generator.py:139-144 | A `find`/`record` decision before the third AI turn yields None, so the record is lost. |
| Transition.FindRecordRule | app/response_generator.py:147-165 | Find and Record fail before running their summarizer when a memoized key is missing. Otherwise they move to Share with the record if and only if `proceed_to_next_phase is True` and there are at least 2 AI turns. In every other case they stay with the record. |
| Transition.FindRecordKeepTheRecord | app/response_generator.py:161-165 | A successful Find or Record step always returns a pair carrying the record. |
| Transition.ShareRule | app/response_generator.py:166-181 | Without a flagged turn, or when the flagged turn is the last one, the result is None. Otherwise the Share summarizer runs on the window starting at the flagged turn. A truthy `share_new_episode` returns (Explore, {"revisited": True}), and anything else gives None. |
| Transition.ReturnToExploreIsRevisit | app/response_generator.py:167-180 | Any return to Explore comes from Share, after a flagged turn that is not the last one. The window starts at that turn, and the payload is exactly {"revisited": True}. |
| Transition.HelpIsNeverLeft | app/response_generator.py:106-111 | From Help the outcome is None or Help again. |
| ResponseGenerator.EmotionChatbot.constructor | app/response_generator.py:14-38 | A new chatbot starts in Explore with nothing memoized. It stores the given name, age and locale, and every phase has a generator with no parameters yet. |
| ResponseGenerator.EmotionChatbot.GetGenerator | app/response_generator.py:70-91 | The phase's binding is merged into that phase's generator parameters and nothing else changes. A failing binding changes nothing and reports its failure. |
| ResponseGenerator.Binding | app/response_generator.py:70-90 | Help's generator receives nothing. Every other generator that is bound receives the chatbot's locale. Only Explore fails with a KeyError and only Label with a TypeError; Find, Share and Record fail on a missing memo. |
| ResponseGenerator.ExploreParameters | app/response_generator.py:74-80 | Explore gets exactly the name, age, locale and `evisited`. `evisited` is True if and only if a payload is given and its `revisited is True`. A payload without `revisited` raises. |
| ResponseGenerator.Revisit | app/response_generator.py:79-80 | The revisit test fails only for a payload without the key. Otherwise it holds if and only if the payload's value is True itself. |
| ResponseGenerator.LabelParameters | app/response_generator.py:81-82 | Label gets every entry of the payload unchanged, plus the locale. It fails if and only if there is no payload or the payload already has `locale`. |
| ResponseGenerator.EpisodeParameters | app/response_generator.py:83-90 | Find, Share and Record get exactly Explore's memoized `key_episode`, Label's memoized `identified_emotions` and the locale. The binding succeeds if and only if both memoized values exist. |
| ResponseGenerator.RevisitSetsExploreFlag | app/response_generator.py:79-80 | The Share rule's revisit payload binds `evisited` to True. No payload binds it to False. |
| ResponseGenerator.EpisodePhasesNeedMemo | app/response_generator.py:83-90 | Find, Share and Record cannot be bound before Explore and Label have memoized records. |
| ResponseGenerator.EmotionChatbot.UpdateGenerator | app/response_generator.py:93-95 | A payload becomes the phase generator's `summarizer_result`. Without a payload nothing changes. |
| ResponseGenerator.EmotionChatbot.SetLocale | app/response_generator.py:65-68 | The locale is stored and merged into the current phase's generator only. Every other generator is unchanged. |
| ResponseGenerator.EmotionChatbot.StampLocale | app/response_generator.py:183-185 | The produced metadata gains `locale`, with every other entry unchanged. Absent metadata becomes a dict holding only the locale. |
| ResponseGenerator.Written | app/response_generator.py:40-44 | The base class's entries are stored first. The name, age and locale then go under their keys, over anything the base class wrote there. Every other key keeps the base class's value if it wrote one, and the parcel's value otherwise. |
| ResponseGenerator.EmotionChatbot.WriteToJson | app/response_generator.py:40-44 | For the entries `base` the base class writes, the parcel afterwards is the written form of the chatbot's profile over those entries. |
| ResponseGenerator.EmotionChatbot.RestoreFromJson | app/response_generator.py:46-51 | Restoring succeeds if and only if the parcel has a name and an age, and then the profile is the restored one. A parcel with a name but no age still overwrites the name. A failed restore leaves phase and memo as they were, since it raises before the base class runs. The generators are never touched. |
| ResponseGenerator.RestoreAfterWrite | app/response_generator.py:40-50 | Restoring a written parcel gives back the same name, age and locale, whatever the base class wrote. |
| ResponseGenerator.Restored | app/response_generator.py:46-49 | Reading back fails only with a KeyError for `user_name` or `user_age`. On success the name and age are the parcel's, and so is the locale when the parcel has one. |
| ResponseGenerator.RestoreDefaultsToKorean | app/response_generator.py:49 | A parcel without `locale` restores the Korean locale. |
| ResponseGenerator.RestoreNeedsNameAndAge | app/response_generator.py:47-48 | Restoring fails if and only if the name or the age is missing. |
| ResponseGenerator.SaveAndRestore | app/response_generator.py:40-50 | Writing one chatbot and restoring the parcel into another copies the profile, and the restore succeeds. |
| RecordPhase.Postprocessed | app/phases/record.py:63-69 | The result is a regenerate request if and only if the output is not a dict or the `and` chain reaches a missing flag. Otherwise only `proceed_to_next_phase` is added, and every other key is kept. `proceed_to_next_phase` is true if and only if all three flags equal True. |
| RecordPhase.PostprocessOutput | app/phases/record.py:63-69 | The in-place post-processing returns exactly the specified result. |
| RecordPhase.UnaskedDiaryShortCircuits | app/phases/record.py:66 | A false `asked_user_keeping_diary` alone gives a record that does not proceed. It is not a regenerate request. |
| RecordPhase.PostprocessIdempotent | app/phases/record.py:63-67 | Post-processing its own output returns that output unchanged. |
| RecordPhase.RecordProceedsIffAllFlags | app/phases/record.py:66 | When the Record summarizer answers with a post-processed record, the phase moves to Share if and only if all three flags are true and there are at least 2 AI turns. Otherwise it stays. |
| RecordPhase.Guidance | app/phases/record.py:28-38 | There is no guide block if and only if no `summarizer_result` was given. A named step's flag is literally false, and no earlier step's flag is. No step is named only when no flag is literally false. |
| RecordPhase.ProceedingRecordNeedsNoGuide | app/phases/record.py:28-38 | A post-processed record that proceeds leaves no step to guide. |
| RecordPhase.GuidedStepBlocksProceeding | app/phases/record.py:31-37 | When the guidance names a step, the same post-processed record does not proceed. |
| RecordPhase.ZeroFlagIsNotGuided | app/phases/record.py:31-37 | A flag of 0 blocks proceeding, yet the guidance names no step for it, because `is false` holds only for False. |
| RecordPhase.PositiveEmotions | app/phases/record.py:16 | The filtered list is no longer than the input, and every entry it keeps has `is_positive` True. |
| RecordPhase.PositiveEmotionsCounts | app/phases/record.py:16 | Each entry whose `is_positive` is True is kept as often as it is listed; any other entry is dropped. |
| RecordPhase.PositiveEmotionsMembers | app/phases/record.py:16 | An entry is in the filtered list if and only if it is listed and its `is_positive` is True. |
| RecordPhase.PositiveEmotionsAppend | app/phases/record.py:16 | Filtering distributes over concatenation, so the original order is kept. |
| RecordPhase.SummarizerListing | app/phases/record.py:50 | Without positive emotions the listing is empty. With one, the listing is that emotion's name alone. |
| RecordPhase.SummarizerListingSplits | app/phases/record.py:50 | Splitting the summarizer's listing at ", " gives the names of the positive emotions in order. This holds when no name contains a comma. |
| RecordPhase.GeneratorListingAsWritten | app/phases/record.py:16-18 | The generator's listing, as written, is empty if and only if no emotion is positive. |
| RecordPhase.ReasonIsNotRendered | app/phases/record.py:17 | As written, two emotions that differ only in their reason render identical listings. |
| RecordPhase.ReasonIsRendered | app/phases/record.py:17 | With the reason rendered, different reasons give different listings. |
| LabelPhase.TableShape | app/phases/label.py:13-31 | The table has the 16 entries the summarizer instruction announces (app/phases/label.py:96). Every valence is "positive" or "negative". |
| LabelPhase.ValenceCounts | app/phases/label.py:15-30 | Seven entries are positive and nine are negative. |
| LabelPhase.NamesAreDistinct | app/phases/label.py:15-30 | English names are pairwise distinct, and so are Korean names. |
| LabelPhase.EmotionList | app/phases/label.py:66 | Splitting the rendered list at ", " gives back the `Eng (Kor)` items in table order. |
| LabelPhase.EmotionListLists | app/phases/label.py:66 | No two items of the rendered list are the same, so each entry is listed once. |
| LabelPhase.RewritePlaceholders | app/phases/label.py:82 | After the two replacements neither `<:` nor `:>` remains. |
| LabelPhase.PlaceholderBecomesField | app/phases/label.py:70-82 | `<:name:>` becomes `{name}` for a name without `<` or `:`. |
| LabelPhase.KeyEpisodePlaceholder | app/phases/label.py:70 | `<:key_episode:>` becomes `{key_episode}`. |
| LabelPhase.TokenMetadata | app/phases/label.py:83 | Every declared presence-flag token that was found sets its metadata key to True. Every key set belongs to such a token. |
| LabelPhase.EmotionSelectFlagsTurn | app/phases/label.py:65-83 | The emotion-select token sets exactly `select_emotion` to True. Its absence sets nothing. |
| LabelPhase.ExamplesUseTableNames | app/phases/label.py:164-195 | Every `identified_emotion_types` value in the summarizer examples is an English name from the table. |
| ChatPage.Normalize | frontend/src/script/app/chat/pages/ChatPage.tsx:133-135 | A message is rejected if and only if it is all white space. An accepted message is non-empty and trimmed. It has no two adjacent spaces, no carriage return and no two adjacent line feeds. |
| ChatPage.NormalizeSpaceRun | frontend/src/script/app/chat/pages/ChatPage.tsx:134 | Between two words without white space, a run of spaces of any length becomes exactly one space. |
| ChatPage.NormalizeLineBreakRun | frontend/src/script/app/chat/pages/ChatPage.tsx:134 | Between two words without white space, a run of carriage returns and line feeds of any length becomes exactly one line feed. |
| ChatPage.NormalizeIdempotent | frontend/src/script/app/chat/pages/ChatPage.tsx:134 | Normalising a normalised message changes nothing. |
| ChatPage.NormalizeKeepsWords | frontend/src/script/app/chat/pages/ChatPage.tsx:134 | Apart from space and CR/LF runs, the trimmed text survives normalisation in order. |
| ChatPage.Trim | frontend/src/script/app/chat/pages/ChatPage.tsx:134 | The result has no white space at either end. It is empty if and only if the input is all white space. |
| ChatPage.TrimTrimmed | frontend/src/script/app/chat/pages/ChatPage.tsx:134 | Trimming a trimmed string changes nothing. |
| ChatPage.Collapse | frontend/src/script/app/chat/pages/ChatPage.tsx:134 | Collapsing never lengthens a string, and gives the empty string only for the empty string. |
| ChatPage.CollapseRun | frontend/src/script/app/chat/pages/ChatPage.tsx:134 | A whole non-empty run becomes the single replacement character: a space for spaces, a line feed for CR/LF. |
| ChatPage.CollapseFree | frontend/src/script/app/chat/pages/ChatPage.tsx:134 | A string without run characters is unchanged. |
| ChatPage.CollapseAppend | frontend/src/script/app/chat/pages/ChatPage.tsx:134 | Collapsing a concatenation is the concatenation of the collapsed parts, unless a run crosses the cut. With CollapseRun and CollapseFree this fixes the result on every string. |
| ChatPage.CollapseBetween | frontend/src/script/app/chat/pages/ChatPage.tsx:134 | A run between two run-free words becomes one replacement character, and the words are unchanged. |
| ChatPage.CollapseRemovesRuns | frontend/src/script/app/chat/pages/ChatPage.tsx:134 | After collapsing, no run is longer than one character, and every run character is the replacement. |
| ChatPage.CollapseFirst | frontend/src/script/app/chat/pages/ChatPage.tsx:134 | The first character survives collapsing, or becomes the replacement when it was in a run. |
| ChatPage.CollapseLast | frontend/src/script/app/chat/pages/ChatPage.tsx:134 | The last character survives collapsing, or becomes the replacement when it was in a run. |
| ChatPage.CollapseCollapsed | frontend/src/script/app/chat/pages/ChatPage.tsx:134 | Collapsing a collapsed string changes nothing. |
| ChatPage.CollapseKeepsOthers | frontend/src/script/app/chat/pages/ChatPage.tsx:134 | Characters outside runs are kept, in order. |
| ChatPage.LineBreaksKeepSpacesApart | frontend/src/script/app/chat/pages/ChatPage.tsx:134 | Collapsing CR/LF runs after the space runs cannot create two adjacent spaces. |
| ChatPage.EmotionSelectHidesTypingPanel | frontend/src/script/app/chat/pages/ChatPage.tsx:144-151 | A last AI turn carrying the Label phase's emotion-select token hides the typing panel. A user message after it shows the panel again. |
| ChatPage.ShouldHideTypingPanel | frontend/src/script/app/chat/pages/ChatPage.tsx:144-151 | The panel is hidden only when there is a last message, and that message is either hidden or shown offering regeneration and an enabled emotion picker. |
| ChatPage.HiddenPanelLeavesPicker | frontend/src/script/app/chat/pages/ChatPage.tsx:144-272 | While the typing panel is hidden, the last message offers an enabled emotion picker, unless that message is itself hidden. |
| ChatPage.ViewOf | frontend/src/script/app/chat/pages/ChatPage.tsx:257-272 | A message is hidden if and only if `hide === true`. Regeneration is offered if and only if it is an AI message and the last one. The picker appears if and only if `select_emotion === true`, and is enabled if and only if the message is last. |
| ChatPage.Views | frontend/src/script/app/chat/pages/ChatPage.tsx:115-117 | One view per message, and only the final message counts as last. |
| ChatPage.RegenerateOnlyLast | frontend/src/script/app/chat/pages/ChatPage.tsx:261-267 | Regeneration is offered only on the last message, and only if it is an AI message. |
| ChatPage.PickerEnabledOnlyLast | frontend/src/script/app/chat/pages/ChatPage.tsx:259-271 | An enabled picker appears only on the last message, and only on a `select_emotion` turn. |
| ChatPage.ChatState.OnSubmit | frontend/src/script/app/chat/pages/ChatPage.tsx:168-173 | While a system message loads, nothing changes. Otherwise the form is reset and exactly one user message without metadata is dispatched. |
| ChatPage.ChatState.HandleSubmit | frontend/src/script/app/chat/pages/ChatPage.tsx:133-173 | The schema runs first. Only an accepted message reaches the submit handler, in normalised form, and a rejected one changes nothing. |

## Left out

- The LLM calls. Summarizers are oracles from an invocation to the dict of their decision record, and generators are represented by their instruction parameters. Prompt texts and example dialogues are left out.
- A decision record is read as a dict: a missing attribute reads as None.
- The base generator class is not part of this model. Each piece appears only at its interface:
  - Applying a transition and memoizing payloads are left out.
  - Persisting the phase and memo is left out. `super().write_to_json` (app/response_generator.py:41) appears only as the entries it writes, a parameter. The entries `super().restore_from_json` (app/response_generator.py:51) reads back are not modelled.
  - `trim_dialogue_recent_n_states` is replaced by the AI-turn count `aiTurns`, given as a parameter.
  - `find_last_turn` is modelled as `LastFlagged`.
  - `_get_memoized_payload` is modelled as `Memoized`.
  - `update_instruction_parameters` is modelled as a dict merge.
- The special-token extractor is left out: the marker text in app/common.py (not part of this model), the regex and the stripping. Only the Label generator's token declaration and the metadata it yields are modelled.
- Locales beyond Korean and English: the `ChatbotLocale` enumeration in app/common.py is not part of this model.
- `async`/`await`, `print` and `verbose` are left out.
- The message transformer list given to the base class is left out.
- explore.py, find.py, share.py and help.py are not part of this model. `update_generator`'s `isinstance` test is taken to hold for all six generators.
- `get_csv_writer` is left out, because it is export formatting over classes not in the model. Its `message_tokens` column reads `completion_tokens`.
- Label memo key: the Label summarizer reports `identified_emotion_types`, while Find, Share and Record read `identified_emotions` from Label's memoized record. What the memo holds is decided by the base class, so the model keeps the missing-key failure as a possible outcome.
- RecordPhase.Text: template rendering of a non-string value (Python `str()`) is not modelled; such a value renders as empty.
- RecordPhase.PositiveEmotions: a non-list `identified_emotions` is not modelled. The filter takes the list's items.
- JSON parsing of the summarizer output is left out. Post-processing starts from the parsed value.
- Of the chat page, only the listed rules are modelled. Left out:
  - rendering, scrolling, timers, clipboard sharing, media queries, network loading;
  - the keyboard handler, which calls the same `handleSubmit`;
  - the `confirm()` dialog before regeneration;
  - the `sendUserMessage` reducer: dispatched messages are recorded in order, not applied to the store.
- `nanoid()` and `Date.now()` are parameters.
- ResponseGenerator.EmotionChatbot.RestoreFromJson: after a successful restore the base class sets the phase and memo from the parcel; the model does not say what they become, only that a failed restore leaves them unchanged.
- ResponseGenerator.Written: the entries the base class writes are a parameter, so the model does not say which keys they are.
- ResponseGenerator.EmotionChatbot.WriteToJson: as for Written, the base class's entries are a parameter.
- ResponseGenerator.EmotionChatbot.StampLocale: `dict_utils.set_nested_value` is not part of this model. For absent metadata the model assumes it starts from an empty dict.
- ChatPage.ChatState.OnSubmit: the dispatch is recorded, not its effect on the message list or the loading flag, because the reducer is not part of this model.

## Findings

| source | as written | input that shows it | evidently intended | confidence | as-written member | corrected member |
|---|---|---|---|---|---|---|
| app/phases/record.py:17 | `{{em.emotion}} (em.reason)` renders the literal text `(em.reason)`, so the reason never reaches the instruction | two positive emotions named "Joy" with reasons "won the race" and "met a friend" render the same line | `{{em.emotion}} ({{em.reason}})` | not executed | RecordPhase.ReasonIsNotRendered | RecordPhase.ReasonIsRendered |
