/**
 * The Label phase's fixed data: the wheel of sixteen basic emotions with
 * their Korean names and valence, the list rendered into the generator's
 * instruction, the `<:name:>` placeholder rewrite, the special token the
 * generator declares, and the emotion types used in the summarizer's examples.
 */
module LabelPhase {
  import opened Common
  import Strings

  /** The valence column of the table, which holds the text "positive" or "negative". */
  datatype Valence = Positive | Negative

  function ValenceText(v: Valence): string
  {
    match v
    case Positive => "positive"
    case Negative => "negative"
  }

  /** An entry of WheelOfEmotion.basics: English name, Korean name, valence. */
  datatype Emotion = Emotion(english: string, korean: string, valence: Valence)

  const Basics: seq<Emotion> := [
    Emotion("Joy", "기쁨", Positive),
    Emotion("Trust", "신뢰", Positive),
    Emotion("Surprise", "놀람", Positive),
    Emotion("Anticipation", "기대", Positive),
    Emotion("Fear", "두려움", Negative),
    Emotion("Sadness", "슬픔", Negative),
    Emotion("Disgust", "불쾌함", Negative),
    Emotion("Anger", "화남", Negative),
    Emotion("Optimism", "낙관", Positive),
    Emotion("Love", "사랑", Positive),
    Emotion("Submission", "굴복감", Negative),
    Emotion("Awe", "경외감", Positive),
    Emotion("Disapproval", "못마땅함", Negative),
    Emotion("Remorse", "후회", Negative),
    Emotion("Contempt", "경멸", Negative),
    Emotion("Aggressiveness", "공격성", Negative)
  ]

  /** The number of emotions the summarizer's instruction says there are to choose from. */
  const StatedEmotionCount := 16

  /** The number of table entries of a valence. */
  function CountValence(table: seq<Emotion>, valence: Valence): (n: nat)
    ensures n <= |table|
  {
    if |table| == 0 then 0
    else (if table[0].valence == valence then 1 else 0) + CountValence(table[1..], valence)
  }

  /** The table has as many entries as the instruction states, each of them positive or negative. */
  lemma TableShape()
    ensures |Basics| == StatedEmotionCount
    ensures forall k :: 0 <= k < |Basics| ==> ValenceText(Basics[k].valence) in {"positive", "negative"}
    ensures CountValence(Basics, Positive) + CountValence(Basics, Negative) == |Basics|
  {
    ValenceCounts();
  }

  /** Seven entries are positive and nine negative. */
  lemma ValenceCounts()
    ensures CountValence(Basics, Positive) == 7
    ensures CountValence(Basics, Negative) == 9
  {
    ValencesFrom0();
    ValencesFrom2();
    ValencesFrom4();
    ValencesFrom6();
    ValencesFrom8();
    ValencesFrom10();
    ValencesFrom12();
    ValencesFrom14();
    CountColumn(Basics);
  }

  /** The counts over any sixteen-entry table with the valence column of Basics. */
  lemma CountColumn(t: seq<Emotion>)
    requires |t| == 16
    requires t[0].valence == Positive && t[1].valence == Positive
    requires t[2].valence == Positive && t[3].valence == Positive
    requires t[4].valence == Negative && t[5].valence == Negative
    requires t[6].valence == Negative && t[7].valence == Negative
    requires t[8].valence == Positive && t[9].valence == Positive
    requires t[10].valence == Negative && t[11].valence == Positive
    requires t[12].valence == Negative && t[13].valence == Negative
    requires t[14].valence == Negative && t[15].valence == Negative
    ensures CountValence(t, Positive) == 7 && CountValence(t, Negative) == 9
  {
    CountSixteen(t, Positive);
    CountSixteen(t, Negative);
  }

  /** The valence column, two entries at a time. */
  lemma ValencesFrom0()
    ensures Basics[0].valence == Positive && Basics[1].valence == Positive
  {
  }

  lemma ValencesFrom2()
    ensures Basics[2].valence == Positive && Basics[3].valence == Positive
  {
  }

  lemma ValencesFrom4()
    ensures Basics[4].valence == Negative && Basics[5].valence == Negative
  {
  }

  lemma ValencesFrom6()
    ensures Basics[6].valence == Negative && Basics[7].valence == Negative
  {
  }

  lemma ValencesFrom8()
    ensures Basics[8].valence == Positive && Basics[9].valence == Positive
  {
  }

  lemma ValencesFrom10()
    ensures Basics[10].valence == Negative && Basics[11].valence == Positive
  {
  }

  lemma ValencesFrom12()
    ensures Basics[12].valence == Negative && Basics[13].valence == Negative
  {
  }

  lemma ValencesFrom14()
    ensures Basics[14].valence == Negative && Basics[15].valence == Negative
  {
  }

  /** 1 when the entry has the valence, else 0. */
  function Tally(e: Emotion, v: Valence): nat
  {
    if e.valence == v then 1 else 0
  }

  /** The count over a sixteen-entry table, written out entry by entry. */
  lemma CountSixteen(t: seq<Emotion>, v: Valence)
    requires |t| == 16
    ensures CountValence(t, v) ==
      Tally(t[0], v) +
      Tally(t[1], v) +
      Tally(t[2], v) +
      Tally(t[3], v) +
      Tally(t[4], v) +
      Tally(t[5], v) +
      Tally(t[6], v) +
      Tally(t[7], v) +
      Tally(t[8], v) +
      Tally(t[9], v) +
      Tally(t[10], v) +
      Tally(t[11], v) +
      Tally(t[12], v) +
      Tally(t[13], v) +
      Tally(t[14], v) +
      Tally(t[15], v)
  {
    assert t[0..] == t;
    CountFour(t, 0, v);
    CountFour(t, 4, v);
    CountFour(t, 8, v);
    CountFour(t, 12, v);
    assert |t[16..]| == 0;
  }

  /** Four counting steps from entry k. */
  lemma CountFour(t: seq<Emotion>, k: int, v: Valence)
    requires 0 <= k && k + 4 <= |t|
    ensures CountValence(t[k..], v) ==
      Tally(t[k], v) + Tally(t[k + 1], v) + Tally(t[k + 2], v) + Tally(t[k + 3], v) + CountValence(t[k + 4..], v)
  {
    CountStepOf(t, k, v);
    CountStepOf(t, k + 1, v);
    CountStepOf(t, k + 2, v);
    CountStepOf(t, k + 3, v);
  }

  /** One counting step at entry k. */
  lemma CountStepOf(t: seq<Emotion>, k: int, v: Valence)
    requires 0 <= k < |t|
    ensures CountValence(t[k..], v) == Tally(t[k], v) + CountValence(t[k + 1..], v)
  {
    assert t[k..][1..] == t[k + 1..];
  }

  /** No two entries share an English name, and no two share a Korean name. */
  lemma NamesAreDistinct()
    ensures forall i, j :: 0 <= i < j < |Basics| ==> Basics[i].english != Basics[j].english
    ensures forall i, j :: 0 <= i < j < |Basics| ==> Basics[i].korean != Basics[j].korean
  {
    forall i, j | 0 <= i < j < |Basics|
      ensures Basics[i].english != Basics[j].english && Basics[i].korean != Basics[j].korean
    {
      NamesLocate(i);
      NamesLocate(j);
    }
  }

  /** The row of an English name, or -1. */
  function EnglishRow(name: string): int
  {
    if name == "Joy" then 0
    else if name == "Trust" then 1
    else if name == "Surprise" then 2
    else if name == "Anticipation" then 3
    else if name == "Fear" then 4
    else if name == "Sadness" then 5
    else if name == "Disgust" then 6
    else if name == "Anger" then 7
    else if name == "Optimism" then 8
    else if name == "Love" then 9
    else if name == "Submission" then 10
    else if name == "Awe" then 11
    else if name == "Disapproval" then 12
    else if name == "Remorse" then 13
    else if name == "Contempt" then 14
    else if name == "Aggressiveness" then 15
    else -1
  }

  /** The row of a Korean name, or -1. */
  function KoreanRow(name: string): int
  {
    if name == "기쁨" then 0
    else if name == "신뢰" then 1
    else if name == "놀람" then 2
    else if name == "기대" then 3
    else if name == "두려움" then 4
    else if name == "슬픔" then 5
    else if name == "불쾌함" then 6
    else if name == "화남" then 7
    else if name == "낙관" then 8
    else if name == "사랑" then 9
    else if name == "굴복감" then 10
    else if name == "경외감" then 11
    else if name == "못마땅함" then 12
    else if name == "후회" then 13
    else if name == "경멸" then 14
    else if name == "공격성" then 15
    else -1
  }

  /** Each entry's names lead back to its row. */
  lemma NamesLocate(k: int)
    requires 0 <= k < |Basics|
    ensures EnglishRow(Basics[k].english) == k && KoreanRow(Basics[k].korean) == k
  {
    if k < 2 {
      NamesLocateFrom0(k);
    } else if k < 4 {
      NamesLocateFrom2(k);
    } else if k < 6 {
      NamesLocateFrom4(k);
    } else if k < 8 {
      NamesLocateFrom6(k);
    } else if k < 10 {
      NamesLocateFrom8(k);
    } else if k < 12 {
      NamesLocateFrom10(k);
    } else if k < 14 {
      NamesLocateFrom12(k);
    } else {
      NamesLocateFrom14(k);
    }
  }
  lemma NamesLocateFrom0(k: int)
    requires 0 <= k < 2
    ensures EnglishRow(Basics[k].english) == k && KoreanRow(Basics[k].korean) == k
  {
  }

  lemma NamesLocateFrom2(k: int)
    requires 2 <= k < 4
    ensures EnglishRow(Basics[k].english) == k && KoreanRow(Basics[k].korean) == k
  {
  }

  lemma NamesLocateFrom4(k: int)
    requires 4 <= k < 6
    ensures EnglishRow(Basics[k].english) == k && KoreanRow(Basics[k].korean) == k
  {
  }

  lemma NamesLocateFrom6(k: int)
    requires 6 <= k < 8
    ensures EnglishRow(Basics[k].english) == k && KoreanRow(Basics[k].korean) == k
  {
  }

  lemma NamesLocateFrom8(k: int)
    requires 8 <= k < 10
    ensures EnglishRow(Basics[k].english) == k && KoreanRow(Basics[k].korean) == k
  {
  }

  lemma NamesLocateFrom10(k: int)
    requires 10 <= k < 12
    ensures EnglishRow(Basics[k].english) == k && KoreanRow(Basics[k].korean) == k
  {
  }

  lemma NamesLocateFrom12(k: int)
    requires 12 <= k < 14
    ensures EnglishRow(Basics[k].english) == k && KoreanRow(Basics[k].korean) == k
  {
  }

  lemma NamesLocateFrom14(k: int)
    requires 14 <= k < 16
    ensures EnglishRow(Basics[k].english) == k && KoreanRow(Basics[k].korean) == k
  {
  }



  /** One item of the rendered list: `Eng (Kor)`. */
  function Item(e: Emotion): string
  {
    e.english + " (" + e.korean + ")"
  }

  function Items(table: seq<Emotion>): (r: seq<string>)
    ensures |r| == |table|
    ensures forall k :: 0 <= k < |table| ==> r[k] == Item(table[k])
  {
    if |table| == 0 then [] else [Item(table[0])] + Items(table[1..])
  }

  /** The list of emotions rendered into the Label generator's instruction. */
  function EmotionList(): (r: string)
    ensures Strings.SplitOn(r, ", ") == Items(Basics)
  {
    AllNamesPlain();
    NamesAreDistinct();
    JoinedItemsSplit(Basics);
    Strings.Join(Items(Basics), ", ")
  }

  /** The rendered list names every entry once: no two items are the same. */
  lemma EmotionListLists()
    ensures forall i, j :: 0 <= i < j < |Basics| ==> Items(Basics)[i] != Items(Basics)[j]
  {
    AllNamesPlain();
    NamesAreDistinct();
    JoinedItemsSplit(Basics);
  }

  lemma AllNamesPlain()
    ensures forall k :: 0 <= k < |Basics| ==> PlainNames(Basics[k])
  {
    forall k | 0 <= k < |Basics|
      ensures PlainNames(Basics[k])
    {
      NamesArePlain(k);
    }
  }

  /** The `, `-joined items of a table with plain, distinct names split back into those items. */
  lemma JoinedItemsSplit(table: seq<Emotion>)
    requires |table| > 0
    requires forall k :: 0 <= k < |table| ==> PlainNames(table[k])
    requires forall i, j :: 0 <= i < j < |table| ==> table[i].english != table[j].english
    ensures Strings.SplitOn(Strings.Join(Items(table), ", "), ", ") == Items(table)
    ensures forall i, j :: 0 <= i < j < |table| ==> Items(table)[i] != Items(table)[j]
  {
    var items := Items(table);
    forall k | 0 <= k < |items|
      ensures ", "[0] !in items[k]
    {
      ItemHasNoComma(table[k]);
    }
    Strings.SplitOnJoin(items, ", ");
    forall i, j | 0 <= i < j < |table|
      ensures items[i] != items[j]
    {
      ItemsDiffer(table[i], table[j]);
    }
  }

  lemma ItemHasNoComma(e: Emotion)
    requires PlainNames(e)
    ensures ',' !in Item(e)
  {
    assert Item(e) == e.english + (" (" + (e.korean + ")"));
  }

  /** Neither name holds a comma, and the English name holds no parenthesis. */
  predicate PlainNames(e: Emotion)
  {
    ',' !in e.english && ',' !in e.korean && '(' !in e.english
  }

  lemma NamesArePlain(k: int)
    requires 0 <= k < |Basics|
    ensures PlainNames(Basics[k])
  {
    if k < 2 {
      NamesArePlainFrom0(k);
    } else if k < 4 {
      NamesArePlainFrom2(k);
    } else if k < 6 {
      NamesArePlainFrom4(k);
    } else if k < 8 {
      NamesArePlainFrom6(k);
    } else if k < 10 {
      NamesArePlainFrom8(k);
    } else if k < 12 {
      NamesArePlainFrom10(k);
    } else if k < 14 {
      NamesArePlainFrom12(k);
    } else {
      NamesArePlainFrom14(k);
    }
  }
  lemma NamesArePlainFrom0(k: int)
    requires 0 <= k < 2
    ensures PlainNames(Basics[k])
  {
  }

  lemma NamesArePlainFrom2(k: int)
    requires 2 <= k < 4
    ensures PlainNames(Basics[k])
  {
  }

  lemma NamesArePlainFrom4(k: int)
    requires 4 <= k < 6
    ensures PlainNames(Basics[k])
  {
  }

  lemma NamesArePlainFrom6(k: int)
    requires 6 <= k < 8
    ensures PlainNames(Basics[k])
  {
  }

  lemma NamesArePlainFrom8(k: int)
    requires 8 <= k < 10
    ensures PlainNames(Basics[k])
  {
  }

  lemma NamesArePlainFrom10(k: int)
    requires 10 <= k < 12
    ensures PlainNames(Basics[k])
  {
  }

  lemma NamesArePlainFrom12(k: int)
    requires 12 <= k < 14
    ensures PlainNames(Basics[k])
  {
  }

  lemma NamesArePlainFrom14(k: int)
    requires 14 <= k < 16
    ensures PlainNames(Basics[k])
  {
  }



  /** Items of entries with different English names and no parenthesis in them differ. */
  lemma ItemsDiffer(e1: Emotion, e2: Emotion)
    requires '(' !in e1.english && '(' !in e2.english
    requires e1.english != e2.english
    ensures Item(e1) != Item(e2)
  {
    if |e1.english| < |e2.english| {
      ParenthesisAfterName(e1, e2);
    } else if |e2.english| < |e1.english| {
      ParenthesisAfterName(e2, e1);
    } else {
      var k :| 0 <= k < |e1.english| && e1.english[k] != e2.english[k];
      assert Item(e1)[k] == e1.english[k] && Item(e2)[k] == e2.english[k];
    }
  }

  /** Just past the shorter name its item has `(`, where the longer one's item does not. */
  lemma ParenthesisAfterName(short: Emotion, long: Emotion)
    requires '(' !in long.english
    requires |short.english| < |long.english|
    ensures Item(short) != Item(long)
  {
    var n := |short.english| + 1;
    assert Item(short)[n] == '(';
    if n < |long.english| {
      assert Item(long)[n] == long.english[n];
      assert long.english[n] in long.english;
    } else {
      assert Item(long)[n] == ' ';
    }
  }

  // ---------------------------------------------------------------------
  // Placeholder rewrite

  /** `s.replace("<:", "{").replace(":>", "}")`. */
  function RewritePlaceholders(s: string): (r: string)
    ensures !Strings.HasPair(r, '<', ':')
    ensures !Strings.HasPair(r, ':', '>')
  {
    var once := Strings.ReplaceAll(s, "<:", "{");
    Strings.ReplaceAllLeavesNoPair(s, "<:", "{", '<', ':');
    var twice := Strings.ReplaceAll(once, ":>", "}");
    Strings.ReplaceAllLeavesNoPair(once, ":>", "}", ':', '>');
    assert twice == Strings.ReplaceAll(once, ":>", "}");
    RewriteKeepsNoOpen(once);
    twice
  }

  /** The second replacement introduces no `<` and so cannot create a new `<:`. */
  lemma RewriteKeepsNoOpen(once: string)
    requires !Strings.HasPair(once, '<', ':')
    ensures !Strings.HasPair(Strings.ReplaceAll(once, ":>", "}"), '<', ':')
  {
    Strings.ReplaceAllLeavesNoPair(once, ":>", "}", '<', ':');
  }

  /** A placeholder `<:name:>` becomes the format field `{name}` when `name` holds neither `<` nor `:`. */
  lemma PlaceholderBecomesField(name: string)
    requires '<' !in name && ':' !in name
    ensures RewritePlaceholders("<:" + name + ":>") == "{" + name + "}"
  {
    Strings.ReplaceAllPattern("<:", "{", name + ":>");
    assert "<:" + name + ":>" == "<:" + (name + ":>");
    Strings.ReplaceAllPlain(name, ":>", "<:", "{");
    Strings.ReplaceAllPlain(":>", "", "<:", "{");
    assert ":>" + "" == ":>";
    assert Strings.ReplaceAll("", "<:", "{") == "";
    var once := "{" + name + ":>";
    assert Strings.ReplaceAll("<:" + name + ":>", "<:", "{") == once;
    Strings.ReplaceAllPlain("{" + name, ":>", ":>", "}");
    Strings.ReplaceAllPattern(":>", "}", "");
    assert once == ("{" + name) + ":>";
    assert (":>" + "") == ":>";
  }

  /** The key-episode placeholder of the Label instruction. */
  lemma KeyEpisodePlaceholder()
    ensures RewritePlaceholders("<:key_episode:>") == "{key_episode}"
  {
    var name := "key_episode";
    assert '<' !in name && ':' !in name;
    PlaceholderBecomesField(name);
    assert "<:" + name + ":>" == "<:key_episode:>";
    assert "{" + name + "}" == "{key_episode}";
  }

  // ---------------------------------------------------------------------
  // Special token and summarizer examples

  datatype SpecialToken = EmotionSelect

  /** A special-token declaration: the token, its metadata key, and whether it is a presence flag. */
  datatype TokenSpec = TokenSpec(token: SpecialToken, metadataKey: string, presenceFlag: bool)

  /** The special tokens the Label generator declares. */
  const LabelTokens: seq<TokenSpec> := [TokenSpec(EmotionSelect, "select_emotion", true)]

  /** The metadata a turn gets when the generated text contains the tokens in `found`. */
  function TokenMetadata(specs: seq<TokenSpec>, found: set<SpecialToken>): (m: Payload)
    ensures forall s :: s in specs && s.presenceFlag && s.token in found ==> s.metadataKey in m && m[s.metadataKey] == Bool(true)
    ensures forall k :: k in m ==> exists s :: s in specs && s.presenceFlag && s.token in found && s.metadataKey == k
  {
    if |specs| == 0 then map[]
    else
      var rest := TokenMetadata(specs[1..], found);
      assert forall s :: s in specs[1..] ==> s in specs;
      if specs[0].presenceFlag && specs[0].token in found then rest[specs[0].metadataKey := Bool(true)] else rest
  }

  /** A Label turn carrying the emotion-select token gets `select_emotion` set to true, and nothing else. */
  lemma EmotionSelectFlagsTurn()
    ensures TokenMetadata(LabelTokens, {EmotionSelect}) == map["select_emotion" := Bool(true)]
    ensures TokenMetadata(LabelTokens, {}) == map[]
  {
  }

  /** The `identified_emotion_types` of the summarizer's three examples. */
  const ExampleEmotionTypes: seq<seq<string>> := [["Surprise", "Anger"], ["Sadness", "Remorse"], ["Remorse"]]

  predicate IsTableName(name: string)
  {
    exists k :: 0 <= k < |Basics| && Basics[k].english == name
  }

  /** Every emotion type named in the examples is an English name of the table. */
  lemma ExamplesUseTableNames()
    ensures forall ex :: ex in ExampleEmotionTypes ==> forall name :: name in ex ==> IsTableName(name)
  {
    ExampleNamesInTable();
    forall ex | ex in ExampleEmotionTypes
      ensures forall name :: name in ex ==> name in ["Surprise", "Anger", "Sadness", "Remorse"]
    {
    }
  }

  lemma ExampleNamesInTable()
    ensures IsTableName("Surprise") && IsTableName("Anger") && IsTableName("Sadness") && IsTableName("Remorse")
  {
    NamesLocateFrom2(2);
    NamesLocateFrom6(7);
    NamesLocateFrom4(5);
    NamesLocateFrom12(13);
  }
}
