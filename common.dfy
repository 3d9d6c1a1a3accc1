/**
 * Shared vocabulary of the emotion-coaching chatbot: the conversation phases,
 * the locales, JSON-like values as the Python code manipulates them (decision
 * records, instruction parameters, turn metadata), dialogue turns, and the
 * failures the code can raise.
 */
module Common {

  datatype Option<+T> = None | Some(value: T)

  /** What the Python code raises; every failure aborts the operation that raised it. */
  datatype Failure =
    | KeyError(key: string)              // a missing key in a dict subscript
    | TypeError(reason: string)          // e.g. `**None`, a duplicate keyword argument
    | MissingContext(key: string)        // a memoized payload of an earlier phase is absent
    | RegenerateRequest(reason: string)  // the summarizer output must be regenerated
    | ValidationError(reason: string)    // a form value rejected by its schema

  datatype Result<+T> = Ok(value: T) | Err(failure: Failure)

  /** The locales of the chatbot (ChatbotLocale); Korean is the default. */
  datatype Locale = Korean | English

  /** The six conversation phases (EmotionChatbotPhase); Explore is the initial one. */
  datatype Phase = Explore | Label | Find | Record | Share | Help

  const AllPhases: set<Phase> := {Explore, Label, Find, Record, Share, Help}

  /** A JSON-like value: what a dict of decision records, parameters or metadata holds. */
  datatype Value =
    | Null
    | Bool(b: bool)
    | Int(i: int)
    | Str(s: string)
    | LocaleTag(locale: Locale)          // a ChatbotLocale enum member stored as a value
    | List(items: seq<Value>)
    | Dict(entries: map<string, Value>)

  /** A Python dict with string keys. */
  type Payload = map<string, Value>

  /** The memoized decision record of each phase. */
  type Memo = map<Phase, Payload>

  /** A dialogue turn: its text, who spoke it, and its metadata. */
  datatype Turn = Turn(message: string, isUser: bool, metadata: Payload)

  /** `d.get(key)`: an absent key reads as None. */
  function Get(d: Payload, key: string): Value
  {
    if key in d then d[key] else Null
  }

  /** Python `v is True`: only the boolean True. */
  predicate StrictTrue(v: Value)
  {
    v == Bool(true)
  }

  /** Python `v == True`: the boolean True, or an integer equal to 1. */
  predicate LooseTrue(v: Value)
  {
    v == Bool(true) || v == Int(1)
  }

  /** Python truthiness `if v:`. */
  predicate Truthy(v: Value)
  {
    match v
    case Null => false
    case Bool(b) => b
    case Int(i) => i != 0
    case Str(s) => s != ""
    case LocaleTag(_) => true
    case List(items) => items != []
    case Dict(entries) => entries != map[]
  }
}
