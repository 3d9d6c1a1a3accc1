/**
 * The stateful part of EmotionChatbotResponseGenerator: the user profile and
 * locale it keeps, the registry of per-phase generators (represented by the
 * instruction parameters each generator has received), the binding of those
 * parameters when a phase's generator is fetched, and persistence of the
 * profile into a parcel dict.
 */
module ResponseGenerator {
  import opened Common
  import Transition

  // ---------------------------------------------------------------------
  // Parameter binding (get_generator)

  /** `True if payload is not None and payload["revisited"] is True else False`; a payload without the key raises. */
  function Revisit(payload: Option<Payload>): (r: Result<bool>)
    ensures r.Err? <==> payload.Some? && "revisited" !in payload.value
    ensures r.Ok? ==> (r.value <==> payload.Some? && StrictTrue(payload.value["revisited"]))
  {
    if payload.None? then Ok(false)
    else if "revisited" !in payload.value then Err(KeyError("revisited"))
    else Ok(StrictTrue(payload.value["revisited"]))
  }

  /** What the Explore generator receives: the profile, the locale and the flag stored under the literal key "evisited". */
  function ExploreParameters(userName: Value, userAge: Value, locale: Value, payload: Option<Payload>): (r: Result<Payload>)
    ensures r.Err? <==> payload.Some? && "revisited" !in payload.value
    ensures r.Ok? ==> r.value.Keys == {"user_name", "user_age", "locale", "evisited"}
    ensures r.Ok? ==> r.value["user_name"] == userName && r.value["user_age"] == userAge && r.value["locale"] == locale
    ensures r.Ok? ==> (r.value["evisited"] == Bool(true) <==> payload.Some? && StrictTrue(payload.value["revisited"]))
    ensures r.Ok? ==> r.value["evisited"].Bool?
  {
    var revisited := Revisit(payload);
    if revisited.Err? then Err(revisited.failure)
    else Ok(map["user_name" := userName, "user_age" := userAge, "locale" := locale, "evisited" := Bool(revisited.value)])
  }

  /**
   * What the Label generator receives: `dict(**payload, locale=locale)`.
   * Unpacking None raises, and so does a payload that already has a "locale" key
   * (the keyword would be given twice).
   */
  function LabelParameters(payload: Option<Payload>, locale: Value): (r: Result<Payload>)
    ensures r.Err? <==> payload.None? || "locale" in payload.value
    ensures r.Ok? ==> r.value.Keys == payload.value.Keys + {"locale"}
    ensures r.Ok? ==> r.value["locale"] == locale
    ensures r.Ok? ==> forall k :: k in payload.value ==> r.value[k] == payload.value[k]
  {
    if payload.None? then Err(TypeError("argument after ** must be a mapping, not NoneType"))
    else if "locale" in payload.value then Err(TypeError("got multiple values for keyword argument 'locale'"))
    else Ok(payload.value["locale" := locale])
  }

  /** What the Find, Share and Record generators receive: Explore's key episode, Label's emotions and the locale. */
  function EpisodeParameters(memo: Memo, locale: Value): (r: Result<Payload>)
    ensures r.Ok? <==>
      Transition.Memoized(memo, Explore, "key_episode").Ok? && Transition.Memoized(memo, Label, "identified_emotions").Ok?
    ensures r.Err? ==> r.failure.MissingContext?
    ensures r.Ok? ==> r.value.Keys == {"key_episode", "identified_emotions", "locale"}
    ensures r.Ok? ==> r.value["key_episode"] == memo[Explore]["key_episode"]
    ensures r.Ok? ==> r.value["identified_emotions"] == memo[Label]["identified_emotions"]
    ensures r.Ok? ==> r.value["locale"] == locale
  {
    var keyEpisode := Transition.Memoized(memo, Explore, "key_episode");
    var emotions := Transition.Memoized(memo, Label, "identified_emotions");
    if keyEpisode.Err? then Err(keyEpisode.failure)
    else if emotions.Err? then Err(emotions.failure)
    else Ok(map["key_episode" := keyEpisode.value, "identified_emotions" := emotions.value, "locale" := locale])
  }

  /** The update get_generator applies to a phase's generator; Help's receives none. */
  function Binding(state: Phase, payload: Option<Payload>, userName: Value, userAge: Value, locale: Value, memo: Memo): (r: Result<Payload>)
    ensures state == Help ==> r == Ok(map[])
    ensures state != Help && r.Ok? ==> "locale" in r.value && r.value["locale"] == locale
    ensures r.Err? ==> state in {Explore, Label, Find, Share, Record}
    ensures r.Err? ==> (r.failure.KeyError? <==> state == Explore) && (r.failure.TypeError? <==> state == Label)
  {
    match state
    case Explore => ExploreParameters(userName, userAge, locale, payload)
    case Label => LabelParameters(payload, locale)
    case Find => EpisodeParameters(memo, locale)
    case Share => EpisodeParameters(memo, locale)
    case Record => EpisodeParameters(memo, locale)
    case Help => Ok(map[])
  }

  /** Entering Explore through the Share rule's revisit sets the flag; entering it without a payload clears it. */
  lemma RevisitSetsExploreFlag(userName: Value, userAge: Value, locale: Value)
    ensures var r := Binding(Explore, Some(Transition.Revisited), userName, userAge, locale, map[]);
      r.Ok? && r.value["evisited"] == Bool(true)
    ensures var r := Binding(Explore, None, userName, userAge, locale, map[]);
      r.Ok? && r.value["evisited"] == Bool(false)
  {
  }

  /** Find, Share and Record cannot be bound before Explore and Label have memoized their records. */
  lemma EpisodePhasesNeedMemo(state: Phase, payload: Option<Payload>, userName: Value, userAge: Value, locale: Value, memo: Memo)
    requires state in {Find, Share, Record}
    requires Explore !in memo || Label !in memo
    ensures Binding(state, payload, userName, userAge, locale, memo).Err?
    ensures Binding(state, payload, userName, userAge, locale, memo).failure.MissingContext?
  {
  }

  // ---------------------------------------------------------------------
  // Persistence (write_to_json / restore_from_json)

  /** The three fields this class adds to the persisted state. */
  datatype Profile = Profile(userName: Value, userAge: Value, locale: Value)

  /**
   * The parcel after write_to_json. The base class writes first; what it
   * stores is the parameter `base`. The profile then goes under its three
   * keys, over anything the base class wrote there, and no other key changes.
   */
  function Written(parcel: Payload, base: Payload, p: Profile): (r: Payload)
    ensures r.Keys == parcel.Keys + base.Keys + {"user_name", "user_age", "locale"}
    ensures r["user_name"] == p.userName && r["user_age"] == p.userAge && r["locale"] == p.locale
    ensures forall k :: k in base && k !in {"user_name", "user_age", "locale"} ==> r[k] == base[k]
    ensures forall k :: k in parcel && k !in base && k !in {"user_name", "user_age", "locale"} ==> r[k] == parcel[k]
  {
    (parcel + base)["user_name" := p.userName]["user_age" := p.userAge]["locale" := p.locale]
  }

  /** What restore_from_json reads back: name and age are required, the locale defaults to Korean. */
  function Restored(parcel: Payload): (r: Result<Profile>)
    ensures r.Err? ==> r.failure == KeyError("user_name") || r.failure == KeyError("user_age")
    ensures r.Ok? ==> "user_name" in parcel && r.value.userName == parcel["user_name"]
    ensures r.Ok? ==> "user_age" in parcel && r.value.userAge == parcel["user_age"]
    ensures r.Ok? && "locale" in parcel ==> r.value.locale == parcel["locale"]
  {
    if "user_name" !in parcel then Err(KeyError("user_name"))
    else if "user_age" !in parcel then Err(KeyError("user_age"))
    else Ok(Profile(parcel["user_name"], parcel["user_age"],
                    if "locale" in parcel then parcel["locale"] else LocaleTag(Korean)))
  }

  lemma RestoreAfterWrite(parcel: Payload, base: Payload, p: Profile)
    ensures Restored(Written(parcel, base, p)) == Ok(p)
  {
  }

  lemma RestoreDefaultsToKorean(parcel: Payload)
    requires "user_name" in parcel && "user_age" in parcel && "locale" !in parcel
    ensures Restored(parcel) == Ok(Profile(parcel["user_name"], parcel["user_age"], LocaleTag(Korean)))
  {
  }

  lemma RestoreNeedsNameAndAge(parcel: Payload)
    ensures Restored(parcel).Err? <==> "user_name" !in parcel || "user_age" !in parcel
  {
  }

  /** A dict the caller hands to write_to_json, which fills it in place. */
  class Parcel {
    var entries: Payload

    constructor (entries: Payload)
      ensures this.entries == entries
    {
      this.entries := entries;
    }
  }

  function NameValue(name: Option<string>): Value
  {
    if name.Some? then Str(name.value) else Null
  }

  function AgeValue(age: Option<int>): Value
  {
    if age.Some? then Int(age.value) else Null
  }

  // ---------------------------------------------------------------------
  // The generator object

  class EmotionChatbot {
    var currentState: Phase
    var memo: Memo
    var userName: Value
    var userAge: Value
    var locale: Value
    /** The instruction parameters of each phase's generator. */
    var generatorParams: map<Phase, Payload>

    /** Every phase, the current one included, has its generator. */
    ghost predicate Valid()
      reads this
    {
      && (forall p: Phase :: p in generatorParams)
      && currentState in generatorParams
    }

    /** A fresh chatbot starts in Explore with one generator per phase and nothing memoized. */
    constructor (userName: Option<string>, userAge: Option<int>, locale: Locale)
      ensures Valid()
      ensures currentState == Explore && memo == map[]
      ensures this.userName == NameValue(userName) && this.userAge == AgeValue(userAge)
      ensures this.locale == LocaleTag(locale)
      ensures forall p :: p in generatorParams ==> generatorParams[p] == map[]
    {
      currentState := Explore;
      memo := map[];
      this.userName := NameValue(userName);
      this.userAge := AgeValue(userAge);
      this.locale := LocaleTag(locale);
      var params: map<Phase, Payload> := map p | p in AllPhases :: map[];
      forall p: Phase
        ensures p in params
      {
        match p
        case Explore =>
        case Label =>
        case Find =>
        case Record =>
        case Share =>
        case Help =>
      }
      generatorParams := params;
    }

    function Persisted(): Profile
      reads this
    {
      Profile(userName, userAge, locale)
    }

    /** write_to_json: the base class's entries `base` go in first, then the profile. */
    method WriteToJson(parcel: Parcel, base: Payload)
      modifies parcel
      ensures parcel.entries == Written(old(parcel.entries), base, Persisted())
    {
      parcel.entries := parcel.entries + base;
      parcel.entries := parcel.entries["user_name" := userName];
      parcel.entries := parcel.entries["user_age" := userAge];
      parcel.entries := parcel.entries["locale" := locale];
    }

    /**
     * restore_from_json: read the profile back. The name is assigned before
     * the age is looked up, so a parcel with a name and no age changes the
     * name and then fails.
     */
    method RestoreFromJson(parcel: Parcel) returns (r: Result<()>)
      modifies this
      ensures r.Ok? <==> Restored(parcel.entries).Ok?
      ensures r.Ok? ==> Persisted() == Restored(parcel.entries).value
      ensures r.Err? ==> r.failure == Restored(parcel.entries).failure
      ensures "user_name" !in parcel.entries ==> userName == old(userName)
      ensures "user_name" in parcel.entries ==> userName == parcel.entries["user_name"]
      ensures r.Err? ==> userAge == old(userAge) && locale == old(locale)
      // a missing key raises before the base class restores the phase and the memo
      ensures r.Err? ==> currentState == old(currentState) && memo == old(memo)
      ensures generatorParams == old(generatorParams)
    {
      if "user_name" !in parcel.entries {
        return Err(KeyError("user_name"));
      }
      userName := parcel.entries["user_name"];
      if "user_age" !in parcel.entries {
        return Err(KeyError("user_age"));
      }
      userAge := parcel.entries["user_age"];
      locale := if "locale" in parcel.entries then parcel.entries["locale"] else LocaleTag(Korean);
      r := Ok(());
    }

    /** The `locale` setter: store it and pass it to the current phase's generator. */
    method SetLocale(l: Locale)
      requires Valid()
      modifies this
      ensures Valid()
      ensures locale == LocaleTag(l)
      ensures generatorParams ==
        old(generatorParams)[old(currentState) := old(generatorParams)[old(currentState)]["locale" := LocaleTag(l)]]
      ensures currentState == old(currentState) && memo == old(memo)
      ensures userName == old(userName) && userAge == old(userAge)
    {
      generatorParams := generatorParams[currentState := generatorParams[currentState]["locale" := LocaleTag(l)]];
      locale := LocaleTag(l);
    }

    /**
     * get_generator: bind the phase's parameters into its generator and
     * return that generator's parameters. A failing binding changes nothing.
     */
    method GetGenerator(state: Phase, payload: Option<Payload>) returns (r: Result<Payload>)
      requires Valid()
      modifies this
      ensures Valid()
      ensures var b := Binding(state, payload, userName, userAge, locale, memo);
        && (b.Err? ==> r == Err(b.failure) && generatorParams == old(generatorParams))
        && (b.Ok? ==> generatorParams == old(generatorParams)[state := old(generatorParams)[state] + b.value]
                      && r == Ok(generatorParams[state]))
      ensures currentState == old(currentState) && memo == old(memo)
      ensures userName == old(userName) && userAge == old(userAge) && locale == old(locale)
    {
      var b := Binding(state, payload, userName, userAge, locale, memo);
      if b.Err? {
        return Err(b.failure);
      }
      generatorParams := generatorParams[state := generatorParams[state] + b.value];
      r := Ok(generatorParams[state]);
    }

    /** update_generator: a payload becomes the generator's `summarizer_result`; no payload, no change. */
    method UpdateGenerator(state: Phase, payload: Option<Payload>)
      requires Valid()
      modifies this
      ensures Valid()
      ensures payload.Some? ==>
        generatorParams == old(generatorParams)[state := old(generatorParams)[state]["summarizer_result" := Dict(payload.value)]]
      ensures payload.None? ==> generatorParams == old(generatorParams)
      ensures currentState == old(currentState) && memo == old(memo)
      ensures userName == old(userName) && userAge == old(userAge) && locale == old(locale)
    {
      if payload.Some? {
        generatorParams := generatorParams[state := generatorParams[state]["summarizer_result" := Dict(payload.value)]];
      }
    }

    /**
     * _get_response_impl: the produced turn's metadata is stamped with the
     * locale; nothing else changes. Absent metadata is stamped as an empty dict.
     */
    method StampLocale(metadata: Option<Payload>) returns (m: Payload)
      ensures metadata.None? ==> m == map["locale" := locale]
      ensures metadata.Some? ==> m.Keys == metadata.value.Keys + {"locale"}
      ensures m["locale"] == locale
      ensures metadata.Some? ==> forall k :: k in metadata.value && k != "locale" ==> m[k] == metadata.value[k]
    {
      var base := if metadata.Some? then metadata.value else map[];
      m := base["locale" := locale];
    }
  }

  /** Writing one chatbot's profile and restoring it into another copies the profile, whatever the base class wrote. */
  method SaveAndRestore(source: EmotionChatbot, target: EmotionChatbot, base: Payload) returns (r: Result<()>)
    modifies target
    ensures r.Ok?
    ensures target.Persisted() == old(source.Persisted())
  {
    var parcel := new Parcel(map[]);
    source.WriteToJson(parcel, base);
    RestoreAfterWrite(map[], base, source.Persisted());
    r := target.RestoreFromJson(parcel);
  }
}
