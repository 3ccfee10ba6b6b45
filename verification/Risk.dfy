/** Risk classification before coding (app/risk.py). */
module Risk {
  import opened Wrappers
  import opened Contracts

  // The trigger lists are finite lists of lower-case words; their contents play no part in
  // what is proved here.
  datatype RiskSettings = RiskSettings(
    highTriggers: seq<string>, blockedTriggers: seq<string>,
    maxChangedFilesLow: int, maxChangedFilesMedium: int)

  const HIGH_AREAS: set<string> := {"auth", "payments", "db", "infra"}
  const LOW_ONLY_AREAS: set<string> := {"docs"}

  datatype Reason =
    | SecurityFlag
    | HighTrigger(word: string)
    | SensitiveArea(areas: set<string>)
    | BlockedTrigger(word: string)
    | ManyFiles(count: nat, limit: int)

  datatype Assessment = Assessment(
    level: RiskLevel, reasons: seq<Reason>, redTeamRequired: bool, humanPreapprovalRequired: bool)

  function Rank(level: RiskLevel): nat {
    match level
    case Low => 0
    case Medium => 1
    case High => 2
    case Blocked => 3
  }

  function Max(a: RiskLevel, b: RiskLevel): RiskLevel {
    if Rank(a) >= Rank(b) then a else b
  }

  function Spaced(parts: seq<string>): string {
    if parts == [] then "" else if |parts| == 1 then parts[0] else parts[0] + " " + Spaced(parts[1..])
  }

  function Haystack(card: TaskCard, paths: seq<string>): string {
    Lower(Spaced([card.businessGoal, card.acceptanceCriteria, Spaced(card.affectedArea),
                  Spaced(card.contextKeywords), Spaced(paths)]))
  }

  predicate Contains(text: string, word: string) {
    exists k :: 0 <= k <= |text| && OccursAt(text, word, k)
  }

  predicate OccursAt(text: string, word: string, k: nat)
    requires k <= |text|
  {
    k + |word| <= |text| && text[k..k + |word|] == word
  }

  function Areas(card: TaskCard): set<string> {
    set a | a in card.affectedArea :: Lower(a)
  }

  // ---- The level as a join of independent signals ----

  function BaseLevel(taskType: TaskType, areas: set<string>): RiskLevel {
    if taskType in {Feature, Bugfix, Refactor} && !(areas != {} && areas <= LOW_ONLY_AREAS) then Medium else Low
  }

  predicate AnyContained(text: string, words: seq<string>) {
    exists i :: 0 <= i < |words| && Contains(text, words[i])
  }

  function SizeLevel(n: nat, settings: RiskSettings): RiskLevel {
    if n > settings.maxChangedFilesMedium then High
    else if n > settings.maxChangedFilesLow then Medium
    else Low
  }

  function When(condition: bool, level: RiskLevel): RiskLevel {
    if condition then level else Low
  }

  function Join(levels: seq<RiskLevel>): RiskLevel {
    if levels == [] then Low else Max(Join(levels[..|levels| - 1]), Last(levels))
  }

  /** `Join` is the least level at or above every signal. */
  lemma {:induction false} JoinIsLeast(levels: seq<RiskLevel>)
    ensures forall i :: 0 <= i < |levels| ==> Rank(levels[i]) <= Rank(Join(levels))
    ensures Join(levels) == Low || Join(levels) in levels
  {
    if levels != [] {
      JoinIsLeast(levels[..|levels| - 1]);
    }
  }

  lemma {:induction false} JoinKeepsOrder(levels: seq<RiskLevel>, levels': seq<RiskLevel>)
    requires |levels| == |levels'| && forall i :: 0 <= i < |levels| ==> Rank(levels[i]) <= Rank(levels'[i])
    ensures Rank(Join(levels)) <= Rank(Join(levels'))
  {
    if levels != [] {
      JoinKeepsOrder(levels[..|levels| - 1], levels'[..|levels'| - 1]);
    }
  }

  function SignalsFor(text: string, areas: set<string>, card: TaskCard, n: nat, settings: RiskSettings)
    : seq<RiskLevel>
  {
    [BaseLevel(card.taskType, areas),
     When(card.security, High),
     When(AnyContained(text, settings.highTriggers), High),
     When(areas * HIGH_AREAS != {}, High),
     When(AnyContained(text, settings.blockedTriggers), Blocked),
     card.riskHint,
     SizeLevel(n, settings)]
  }

  function Signals(card: TaskCard, paths: seq<string>, settings: RiskSettings): seq<RiskLevel> {
    SignalsFor(Haystack(card, paths), Areas(card), card, |paths|, settings)
  }

  function Level(card: TaskCard, paths: seq<string>, settings: RiskSettings): RiskLevel {
    Join(Signals(card, paths, settings))
  }

  /** One more signal. */
  lemma JoinStep(levels: seq<RiskLevel>, k: nat)
    requires k < |levels|
    ensures Join(levels[..k + 1]) == Max(Join(levels[..k]), levels[k])
  {
    assert levels[..k + 1][..k] == levels[..k];
  }

  function Matches(text: string, words: seq<string>): seq<string> {
    if words == [] then []
    else Matches(text, words[..|words| - 1]) + (if Contains(text, Last(words)) then [Last(words)] else [])
  }

  function Tagged(words: seq<string>, blocked: bool): seq<Reason> {
    seq(|words|, i requires 0 <= i < |words| => if blocked then BlockedTrigger(words[i]) else HighTrigger(words[i]))
  }

  function WordReasons(text: string, areas: set<string>, card: TaskCard, settings: RiskSettings): seq<Reason> {
    (if card.security then [SecurityFlag] else [])
    + Tagged(Matches(text, settings.highTriggers), false)
    + (if areas * HIGH_AREAS != {} then [SensitiveArea(areas * HIGH_AREAS)] else [])
    + Tagged(Matches(text, settings.blockedTriggers), true)
  }

  function ReasonsFor(text: string, areas: set<string>, card: TaskCard, n: nat, settings: RiskSettings): seq<Reason> {
    WordReasons(text, areas, card, settings)
    + (if n > settings.maxChangedFilesMedium then [ManyFiles(n, settings.maxChangedFilesMedium)]
       else if n > settings.maxChangedFilesLow then [ManyFiles(n, settings.maxChangedFilesLow)]
       else [])
  }

  function Reasons(card: TaskCard, paths: seq<string>, settings: RiskSettings): seq<Reason> {
    ReasonsFor(Haystack(card, paths), Areas(card), card, |paths|, settings)
  }

  /** One signal: raises the level and records why, if it is present. */
  method Note(present: bool, to: RiskLevel, why: Reason, level0: RiskLevel, reasons0: seq<Reason>)
    returns (level: RiskLevel, reasons: seq<Reason>)
    ensures level == Max(level0, When(present, to))
    ensures reasons == reasons0 + (if present then [why] else [])
  {
    level, reasons := level0, reasons0;
    if present {
      level, reasons := Max(level, to), reasons + [why];
    }
  }

  /** One trigger list: raises the level when a word occurs, and records each word that does. */
  method ScanTriggers(text: string, words: seq<string>, blocked: bool, level0: RiskLevel, reasons0: seq<Reason>)
    returns (level: RiskLevel, reasons: seq<Reason>)
    ensures level == Max(level0, When(AnyContained(text, words), if blocked then Blocked else High))
    ensures reasons == reasons0 + Tagged(Matches(text, words), blocked)
  {
    level, reasons := level0, reasons0;
    for k := 0 to |words|
      invariant level == Max(level0, When(AnyContained(text, words[..k]), if blocked then Blocked else High))
      invariant reasons == reasons0 + Tagged(Matches(text, words[..k]), blocked)
    {
      AnyContainedGrows(text, words, k);
      assert words[..k + 1][..k] == words[..k];
      if Contains(text, words[k]) {
        level := Max(level, if blocked then Blocked else High);
        reasons := reasons + [if blocked then BlockedTrigger(words[k]) else HighTrigger(words[k])];
      }
    }
    assert words[..|words|] == words;
  }

  lemma AnyContainedGrows(text: string, words: seq<string>, k: nat)
    requires k < |words|
    ensures AnyContained(text, words[..k + 1]) <==> AnyContained(text, words[..k]) || Contains(text, words[k])
  {
    var pre, post := words[..k], words[..k + 1];
    assert forall i :: 0 <= i < k ==> pre[i] == post[i];
    assert post[k] == words[k];
    if i :| 0 <= i < |pre| && Contains(text, pre[i]) {
      assert Contains(text, post[i]);
    }
  }

  /** The classifier, step by step as the source runs it. */
  method ClassifyRisk(card: TaskCard, paths: seq<string>, settings: RiskSettings) returns (a: Assessment)
    ensures a.level == Level(card, paths, settings)
    ensures a.reasons == Reasons(card, paths, settings)
    ensures a.redTeamRequired == a.humanPreapprovalRequired == (a.level in {High, Blocked})
  {
    a := Weigh(Haystack(card, paths), Areas(card), card, |paths|, settings);
  }

  method WeighWords(text: string, areas: set<string>, card: TaskCard, ghost n: nat, settings: RiskSettings)
    returns (level: RiskLevel, reasons: seq<Reason>)
    ensures level == Join(SignalsFor(text, areas, card, n, settings)[..5])
    ensures reasons == WordReasons(text, areas, card, settings)
  {
    ghost var signals := SignalsFor(text, areas, card, n, settings);
    forall k | 0 <= k < 5 {
      JoinStep(signals, k);
    }
    level, reasons := Low, [];
    if card.taskType in {Feature, Bugfix, Refactor} {
      level := if areas != {} && areas <= LOW_ONLY_AREAS then Low else Medium;
    }
    assert level == Join(signals[..1]);
    level, reasons := Note(card.security, High, SecurityFlag, level, reasons);
    level, reasons := ScanTriggers(text, settings.highTriggers, false, level, reasons);
    assert level == Join(signals[..3]);
    level, reasons := Note(areas * HIGH_AREAS != {}, High, SensitiveArea(areas * HIGH_AREAS), level, reasons);
    level, reasons := ScanTriggers(text, settings.blockedTriggers, true, level, reasons);
  }

  method Weigh(text: string, areas: set<string>, card: TaskCard, n: nat, settings: RiskSettings) returns (a: Assessment)
    ensures a.level == Join(SignalsFor(text, areas, card, n, settings))
    ensures a.reasons == ReasonsFor(text, areas, card, n, settings)
    ensures a.redTeamRequired == a.humanPreapprovalRequired == (a.level in {High, Blocked})
  {
    ghost var signals := SignalsFor(text, areas, card, n, settings);
    JoinStep(signals, 5);
    JoinStep(signals, 6);
    var level, reasons := WeighWords(text, areas, card, n, settings);
    level := Max(level, card.riskHint);
    var preapproval := level in {High, Blocked};
    var medium, low := settings.maxChangedFilesMedium, settings.maxChangedFilesLow;
    if n > medium {
      preapproval := true;
      level, reasons := Note(true, High, ManyFiles(n, medium), level, reasons);
    } else {
      level, reasons := Note(n > low, Medium, ManyFiles(n, low), level, reasons);
    }
    assert signals[..7] == signals;
    a := Assessment(level, reasons, level in {High, Blocked}, preapproval || level == High);
  }

  // ---- What the words, the level and the reasons mean ----

  ghost predicate IsAround(text: string, before: string, word: string, after: string) {
    text == before + word + after
  }

  /** A word is contained in a text if the text is something, the word, and something. */
  lemma ContainsMeans(text: string, word: string)
    ensures Contains(text, word) <==> exists before, after :: IsAround(text, before, word, after)
  {
    if k :| 0 <= k <= |text| && OccursAt(text, word, k) {
      assert text == text[..k] + text[k..k + |word|] + text[k + |word|..];
      assert IsAround(text, text[..k], word, text[k + |word|..]);
    }
    if before, after :| IsAround(text, before, word, after) {
      assert text[|before|..|before| + |word|] == word;
      assert OccursAt(text, word, |before|);
    }
  }

  ghost predicate InSome(parts: seq<string>, word: string) {
    exists i :: 0 <= i < |parts| && Contains(Lower(parts[i]), word)
  }

  lemma LowerJoins(s: string, t: string)
    ensures Lower(s + t) == Lower(s) + Lower(t)
  {
  }

  /** A word without a blank does not reach across one. */
  lemma NotAcross(s: string, t: string, word: string)
    requires word != "" && ' ' !in word
    ensures Contains(s + " " + t, word) <==> Contains(s, word) || Contains(t, word)
  {
    var text := s + " " + t;
    assert text[|s|] == ' ' && text[..|s|] == s && text[|s| + 1..] == t;
    if k :| 0 <= k <= |text| && OccursAt(text, word, k) {
      assert k + |word| <= |s| || |s| < k;
      if k < |s| {
        assert s[k..k + |word|] == text[k..k + |word|];
        assert OccursAt(s, word, k);
      } else {
        assert t[k - |s| - 1..k - |s| - 1 + |word|] == text[k..k + |word|];
        assert OccursAt(t, word, k - |s| - 1);
      }
    }
    if k :| 0 <= k <= |s| && OccursAt(s, word, k) {
      assert text[k..k + |word|] == s[k..k + |word|];
      assert OccursAt(text, word, k);
    }
    if k :| 0 <= k <= |t| && OccursAt(t, word, k) {
      assert text[k + |s| + 1..k + |s| + 1 + |word|] == t[k..k + |word|];
      assert OccursAt(text, word, k + |s| + 1);
    }
  }

  lemma {:induction false} SpacedHas(parts: seq<string>, word: string)
    requires word != "" && ' ' !in word
    ensures Contains(Lower(Spaced(parts)), word) <==> InSome(parts, word)
  {
    hide Contains, Lower;
    if parts == [] {
      NothingContained(word);
    } else if |parts| > 1 {
      var rest := parts[1..];
      SpacedHas(rest, word);
      LowerJoins(parts[0], " " + Spaced(rest));
      LowerJoins(" ", Spaced(rest));
      LowerBlank();
      assert Spaced(parts) == parts[0] + (" " + Spaced(rest));
      assert Lower(Spaced(parts)) == Lower(parts[0]) + " " + Lower(Spaced(rest));
      NotAcross(Lower(parts[0]), Lower(Spaced(rest)), word);
      if i :| 0 <= i < |rest| && Contains(Lower(rest[i]), word) {
        assert parts[i + 1] == rest[i];
      }
      if i :| 1 <= i < |parts| && Contains(Lower(parts[i]), word) {
        assert rest[i - 1] == parts[i];
      }
    }
  }

  lemma NothingContained(word: string)
    requires word != ""
    ensures !Contains(Lower(""), word)
  {
  }

  lemma LowerBlank()
    ensures Lower(" ") == " "
  {
  }

  /** A word without a blank occurs in the searched text exactly if it occurs, whatever the case, in the goal, the
      criteria, an area, a keyword or a changed path. */
  lemma HaystackHas(card: TaskCard, paths: seq<string>, word: string)
    requires word != "" && ' ' !in word
    ensures Contains(Haystack(card, paths), word) <==>
      || Contains(Lower(card.businessGoal), word) || Contains(Lower(card.acceptanceCriteria), word)
      || InSome(card.affectedArea, word) || InSome(card.contextKeywords, word) || InSome(paths, word)
  {
    hide Contains, Lower, Spaced;
    var parts := [card.businessGoal, card.acceptanceCriteria, Spaced(card.affectedArea),
                  Spaced(card.contextKeywords), Spaced(paths)];
    SpacedHas(parts, word);
    SpacedHas(card.affectedArea, word);
    SpacedHas(card.contextKeywords, word);
    SpacedHas(paths, word);
    assert parts[0] == card.businessGoal && parts[1] == card.acceptanceCriteria;
    assert parts[2] == Spaced(card.affectedArea) && parts[3] == Spaced(card.contextKeywords);
    assert parts[4] == Spaced(paths);
  }

  ghost predicate Occurs(card: TaskCard, paths: seq<string>, words: seq<string>) {
    exists i :: 0 <= i < |words| && Contains(Haystack(card, paths), words[i])
  }

  ghost predicate IsSensitive(card: TaskCard) {
    exists a :: a in card.affectedArea && Lower(a) in {"auth", "payments", "db", "infra"}
  }

  ghost predicate OnlyDocs(card: TaskCard) {
    card.affectedArea != [] && forall a :: a in card.affectedArea ==> Lower(a) == "docs"
  }

  lemma AreasMean(card: TaskCard)
    ensures Areas(card) * HIGH_AREAS != {} <==> IsSensitive(card)
    ensures Areas(card) != {} && Areas(card) <= LOW_ONLY_AREAS <==> OnlyDocs(card)
  {
    hide Lower;
    forall a | a in card.affectedArea
      ensures Lower(a) in Areas(card)
    {
    }
    if card.affectedArea != [] {
      assert Lower(card.affectedArea[0]) in Areas(card);
    }
    if IsSensitive(card) {
      var a :| a in card.affectedArea && Lower(a) in HIGH_AREAS;
      assert Lower(a) in Areas(card) * HIGH_AREAS;
    }
  }

  /** The level, by what the card says, the words that occur and the number of changed files. */
  lemma LevelIs(card: TaskCard, paths: seq<string>, settings: RiskSettings)
    ensures Level(card, paths, settings) ==
      if card.riskHint == Blocked || Occurs(card, paths, settings.blockedTriggers) then Blocked
      else if
        || card.riskHint == High || card.security || Occurs(card, paths, settings.highTriggers)
        || IsSensitive(card) || |paths| > settings.maxChangedFilesMedium then High
      else if
        || card.riskHint == Medium || |paths| > settings.maxChangedFilesLow
        || (card.taskType in {Feature, Bugfix, Refactor} && !OnlyDocs(card)) then Medium
      else Low
  {
    hide Contains, Haystack, Areas, HIGH_AREAS, LOW_ONLY_AREAS;
    AreasMean(card);
    var signals := Signals(card, paths, settings);
    JoinIsLeast(signals);
    assert signals[0] == BaseLevel(card.taskType, Areas(card)) && signals[1] == When(card.security, High);
    assert signals[2] == When(Occurs(card, paths, settings.highTriggers), High);
    assert signals[3] == When(IsSensitive(card), High);
    assert signals[4] == When(Occurs(card, paths, settings.blockedTriggers), Blocked);
    assert signals[5] == card.riskHint && signals[6] == SizeLevel(|paths|, settings);
  }

  /** Why, for each kind of reason. */
  ghost predicate IsReason(r: Reason, card: TaskCard, paths: seq<string>, settings: RiskSettings) {
    match r
    case SecurityFlag => card.security
    case HighTrigger(word) => word in settings.highTriggers && Contains(Haystack(card, paths), word)
    case BlockedTrigger(word) => word in settings.blockedTriggers && Contains(Haystack(card, paths), word)
    case SensitiveArea(areas) =>
      IsSensitive(card) && forall a :: a in areas <==> a in Areas(card) && a in {"auth", "payments", "db", "infra"}
    case ManyFiles(count, limit) =>
      && count == |paths| && count > limit
      && (if count > settings.maxChangedFilesMedium then limit == settings.maxChangedFilesMedium
          else limit == settings.maxChangedFilesLow)
  }

  lemma {:induction false} MatchesAre(text: string, words: seq<string>, word: string)
    ensures word in Matches(text, words) <==> word in words && Contains(text, word)
  {
    hide Contains;
    if words != [] {
      MatchesAre(text, words[..|words| - 1], word);
      assert words == words[..|words| - 1] + [Last(words)];
    }
  }

  lemma TaggedAre(words: seq<string>, blocked: bool, r: Reason)
    ensures r in Tagged(words, blocked) <==>
      if blocked then r.BlockedTrigger? && r.word in words else r.HighTrigger? && r.word in words
  {
    if (r.BlockedTrigger? || r.HighTrigger?) && r.word in words {
      var i :| 0 <= i < |words| && words[i] == r.word;
      assert Tagged(words, blocked)[i] == if blocked then BlockedTrigger(words[i]) else HighTrigger(words[i]);
    }
  }

  /** The reasons given are exactly those that hold. */
  lemma ReasonsAre(card: TaskCard, paths: seq<string>, settings: RiskSettings, r: Reason)
    ensures r in Reasons(card, paths, settings) <==> IsReason(r, card, paths, settings)
  {
    hide Contains, Haystack, Areas, Matches, Tagged;
    AreasMean(card);
    var text := Haystack(card, paths);
    TaggedAre(Matches(text, settings.highTriggers), false, r);
    TaggedAre(Matches(text, settings.blockedTriggers), true, r);
    if r.HighTrigger? || r.BlockedTrigger? {
      MatchesAre(text, settings.highTriggers, r.word);
      MatchesAre(text, settings.blockedTriggers, r.word);
    }
    if r.SensitiveArea? {
      assert (forall a :: a in r.areas <==> a in Areas(card) && a in {"auth", "payments", "db", "infra"}) <==>
             r.areas == Areas(card) * HIGH_AREAS;
    }
  }

  // ---- Monotonicity ----

  /** Everything that can raise the level of `card` is at least as strong in `card'`. */
  ghost predicate NoWeaker(card: TaskCard, card': TaskCard) {
    && card' == card.(riskHint := card'.riskHint, security := card'.security)
    && Rank(card.riskHint) <= Rank(card'.riskHint)
    && (card.security ==> card'.security)
  }

  /** Adding changed paths, raising the requester's hint or setting the security flag never
      lowers the level. */
  lemma LevelNeverDrops(card: TaskCard, card': TaskCard, paths: seq<string>, more: seq<string>, settings: RiskSettings)
    requires NoWeaker(card, card')
    ensures Rank(Level(card, paths, settings)) <= Rank(Level(card', paths + more, settings))
  {
    HaystackGrows(card, card', paths, more);
    var text, text' := Haystack(card, paths), Haystack(card', paths + more);
    TriggersKeep(text, text', settings.highTriggers);
    TriggersKeep(text, text', settings.blockedTriggers);
    assert Areas(card) == Areas(card');
    JoinKeepsOrder(Signals(card, paths, settings), Signals(card', paths + more, settings));
  }

  lemma TriggersKeep(text: string, text': string, words: seq<string>)
    requires text <= text'
    ensures AnyContained(text, words) ==> AnyContained(text', words)
  {
    if i :| 0 <= i < |words| && Contains(text, words[i]) {
      var k :| 0 <= k <= |text| && OccursAt(text, words[i], k);
      assert OccursAt(text', words[i], k);
      assert Contains(text', words[i]);
    }
  }

  lemma {:induction false} SpacedGrows(paths: seq<string>, more: seq<string>)
    ensures Spaced(paths) <= Spaced(paths + more)
  {
    if paths == [] {
    } else if |paths| == 1 {
      if more != [] {
        assert (paths + more)[1..] == more;
      } else {
        assert paths + more == paths;
      }
    } else {
      SpacedGrows(paths[1..], more);
      assert (paths + more)[1..] == paths[1..] + more;
    }
  }

  lemma LowerGrows(s: string, t: string)
    requires s <= t
    ensures Lower(s) <= Lower(t)
  {
    assert forall i :: 0 <= i < |s| ==> s[i] == t[i];
  }

  lemma HaystackGrows(card: TaskCard, card': TaskCard, paths: seq<string>, more: seq<string>)
    requires NoWeaker(card, card')
    ensures Haystack(card, paths) <= Haystack(card', paths + more)
  {
    SpacedGrows(paths, more);
    var a, b := card.businessGoal, card.acceptanceCriteria;
    var c, d := Spaced(card.affectedArea), Spaced(card.contextKeywords);
    SpacedFive(a, b, c, d, Spaced(paths));
    SpacedFive(a, b, c, d, Spaced(paths + more));
    var front := a + " " + b + " " + c + " " + d + " ";
    assert front + Spaced(paths) <= front + Spaced(paths + more);
    LowerGrows(front + Spaced(paths), front + Spaced(paths + more));
  }

  lemma SpacedFive(a: string, b: string, c: string, d: string, e: string)
    ensures Spaced([a, b, c, d, e]) == a + " " + b + " " + c + " " + d + " " + e
  {
    assert [a, b, c, d, e][1..] == [b, c, d, e];
    assert [b, c, d, e][1..] == [c, d, e];
    assert [c, d, e][1..] == [d, e];
    assert [d, e][1..] == [e];
    assert Spaced([d, e]) == d + " " + e;
    assert Spaced([c, d, e]) == c + " " + d + " " + e;
    assert Spaced([b, c, d, e]) == b + " " + c + " " + d + " " + e;
  }

  /** A level the agent may act on alone bounds the number of planned files. */
  lemma AutonomousIsSmall(card: TaskCard, paths: seq<string>, settings: RiskSettings)
    requires Level(card, paths, settings) in {Low, Medium}
    ensures |paths| <= settings.maxChangedFilesMedium
  {
    JoinIsLeast(Signals(card, paths, settings));
    assert Signals(card, paths, settings)[6] == SizeLevel(|paths|, settings);
  }
}
