/** The briefing transactions: intake, answers with completeness check, /go, cancellation
    (app/briefing_store.py, app/orchestrator.py, app/worker.py, app/webhooks.py). Each is given
    what its queries returned and produces what it writes. Here each is a function; BriefingStore
    runs the steps of the source on row objects and proves that they write the same. */
module Briefing {
  import opened Wrappers
  import opened Contracts
  import opened BriefingFsm
  import opened Ids
  import opened GoAuthorizer
  import opened BriefingSchema

  // ---- Completeness ----

  function RequiredFields(t: TaskType): seq<Field> {
    [TargetBranch, AffectedArea]
    + (if t in {Feature, Bugfix, Refactor} then [BusinessGoal, ReviewerField] else [])
    + (if t in {Feature, Bugfix} then [AcceptanceCriteria] else [])
  }

  predicate Empty(v: Value) {
    match v
    case Text(text) => Blank(text)
    case Items(items) => items == []
  }

  predicate Missing(card: Card, f: Field) { f !in card.fields || Empty(card.fields[f]) }

  function MissingOf(card: Card, fields: seq<Field>): seq<Field> {
    if fields == [] then []
    else MissingOf(card, fields[..|fields| - 1]) + (if Missing(card, Last(fields)) then [Last(fields)] else [])
  }

  function Gaps(card: Card): seq<Field> { MissingOf(card, RequiredFields(card.taskType)) }

  predicate Complete(card: Card) {
    forall f :: f in RequiredFields(card.taskType) ==> !Missing(card, f)
  }

  lemma {:induction false} MissingOfMeans(card: Card, fields: seq<Field>)
    ensures MissingOf(card, fields) == [] <==> forall f :: f in fields ==> !Missing(card, f)
  {
    if fields != [] {
      MissingOfMeans(card, fields[..|fields| - 1]);
      assert fields == fields[..|fields| - 1] + [Last(fields)];
    }
  }

  lemma GapsMean(card: Card)
    ensures Gaps(card) == [] <==> Complete(card)
  {
    MissingOfMeans(card, RequiredFields(card.taskType));
  }

  /** The card says something in this field. */
  predicate Given(card: Card, f: Field) {
    f in card.fields &&
    match card.fields[f]
    case Text(text) => exists i :: 0 <= i < |text| && text[i] !in {' ', '\t', '\n', '\r'}
    case Items(items) => |items| > 0
  }

  /** Every task needs a branch and an area, code also a goal and a reviewer, features and fixes also criteria. */
  predicate IsRequired(t: TaskType, f: Field) {
    match f
    case TargetBranch => true
    case AffectedArea => true
    case BusinessGoal => t in {Feature, Bugfix, Refactor}
    case ReviewerField => t in {Feature, Bugfix, Refactor}
    case AcceptanceCriteria => t in {Feature, Bugfix}
  }

  /** The order in which fields are asked. */
  function PlaceOf(f: Field): nat {
    match f
    case TargetBranch => 0
    case AffectedArea => 1
    case BusinessGoal => 2
    case ReviewerField => 3
    case AcceptanceCriteria => 4
  }

  ghost predicate Ascending(fields: seq<Field>) {
    forall i, j :: 0 <= i < j < |fields| ==> PlaceOf(fields[i]) < PlaceOf(fields[j])
  }

  lemma {:induction false} MissingOfAre(card: Card, fields: seq<Field>)
    ensures forall f :: f in MissingOf(card, fields) <==> f in fields && Missing(card, f)
    ensures Ascending(fields) ==> Ascending(MissingOf(card, fields))
  {
    if fields != [] {
      var init, f := fields[..|fields| - 1], Last(fields);
      MissingOfAre(card, init);
      assert fields == init + [f];
      if Ascending(fields) {
        forall i | 0 <= i < |MissingOf(card, init)|
          ensures PlaceOf(MissingOf(card, init)[i]) < PlaceOf(f)
        {
          assert MissingOf(card, init)[i] in init;
        }
      }
    }
  }

  /** The gaps of a card are exactly the required fields that say nothing, in the order of the form; a card is
      complete exactly if there are none. */
  lemma GapsAre(card: Card)
    ensures forall f :: f in Gaps(card) <==> IsRequired(card.taskType, f) && !Given(card, f)
    ensures Ascending(Gaps(card))
    ensures Complete(card) <==> forall f :: IsRequired(card.taskType, f) ==> Given(card, f)
  {
    var fields := RequiredFields(card.taskType);
    MissingOfAre(card, fields);
    forall f
      ensures f in fields <==> IsRequired(card.taskType, f)
      ensures Missing(card, f) <==> !Given(card, f)
    {
    }
  }

  // ---- Session steps ----

  function Fresh(task: string, now: nat): Session {
    Session(SessionId(task), task, New, 0, None, 1, now)
  }

  /** One transition: leaving WAITING_ANSWERS for anything else forgets the active round. */
  function Moved(s: Session, to: State): Session {
    s.(state := to, activeRound := if to == WaitingAnswers then s.activeRound else None, version := s.version + 1)
  }

  function WithRound(s: Session): Session {
    s.(roundsCount := s.roundsCount + 1, activeRound := Some(NextRound(s)), version := s.version + 1)
  }

  function NextRound(s: Session): RoundId { RoundId(s.id, s.roundsCount + 1) }

  /** `_open_round`, from NEW or from NEEDS_MORE_INFO. */
  function RoundOpened(s: Session): Session {
    var ready := if s.state == New then Moved(s, QuestionsGenerated) else s;
    Moved(WithRound(ready), WaitingAnswers)
  }

  function QuestionsFor(round: RoundId, gaps: seq<Field>): map<QuestionId, Question> {
    map i | 0 <= i < |gaps| :: QuestionId(round, i + 1) := Question(Some(gaps[i]), true, false)
  }

  /** One blocking question per gap, numbered from 1 in the order of the gaps. */
  lemma QuestionsForMean(r: RoundId, gaps: seq<Field>)
    ensures forall q :: q in QuestionsFor(r, gaps) <==> q.round == r && 1 <= q.ordinal <= |gaps|
    ensures forall q :: q in QuestionsFor(r, gaps) ==>
      QuestionsFor(r, gaps)[q] == Question(Some(gaps[q.ordinal - 1]), true, false)
  {
    forall q: QuestionId | q.round == r && 1 <= q.ordinal <= |gaps|
      ensures q in QuestionsFor(r, gaps)
    {
      var i := q.ordinal - 1;
      assert gaps[i] == gaps[i] && q == QuestionId(r, i + 1);
    }
  }

  // ---- Intake ----

  /** What intake takes from the request once it is valid. */
  datatype Form = Form(repo: string, author: string, reviewer: string, card: Card)

  function TaskAfterIntake(form: Form, read: Option<TaskRow>): TaskRow {
    if read.None? then TaskRow(form.repo, form.author, form.reviewer, None, form.card, "intake", false, 1)
    else read.value.(repo := form.repo, reviewer := form.reviewer, card := form.card)
  }

  /** A row the transaction loaded is written back only if some column changed. */
  function TaskWrite(read: Option<TaskRow>, now: TaskRow): RowWrite<TaskRow> {
    if read.None? then Added(now)
    else if now == read.value then Unchanged
    else Changed(read.value.version, now.(version := read.value.version + 1))
  }

  function IntakeWrites(task: string, form: Form, now: nat, taskRead: Option<TaskRow>, sessionRead: Option<Session>)
    : Writes
  {
    var w := Nothing(task).(task := TaskWrite(taskRead, TaskAfterIntake(form, taskRead)));
    var s := if sessionRead.Some? then sessionRead.value else Fresh(task, now);
    if s.state != New then w
    else
      var gaps := Gaps(form.card);
      var s' := if gaps == [] then Moved(Moved(s, CompletenessCheck), ReadyForGo) else RoundOpened(s);
      var w' := w.(session := if sessionRead.Some? then Changed(s.version, s') else Added(s'));
      if gaps == [] then w' else w'.(round := Some(NextRound(s)), questions := QuestionsFor(NextRound(s), gaps))
  }

  /** What intake decides: a task that is already in a briefing gets its card replaced and nothing else;
      otherwise its session is ready if the card is complete, and waits on a first round if not. */
  lemma IntakeDecides(task: string, form: Form, now: nat, taskRead: Option<TaskRow>, sessionRead: Option<Session>)
    ensures
      var w := IntakeWrites(task, form, now, taskRead, sessionRead);
      var open := sessionRead.Some? && sessionRead.value.state != New;
      && (w.session.Unchanged? <==> open)
      && (w.round.Some? <==> !open && !Complete(form.card))
      && (!open ==> w.session.row.state == if Complete(form.card) then ReadyForGo else WaitingAnswers)
      && (sessionRead.None? ==>
        && w.session.Added? && w.session.row.id == SessionId(task)
        && w.session.row.task == task && w.session.row.created == now)
      && w.events == map[] && w.outbox == map[] && w.answers == map[]
  {
    GapsMean(form.card);
  }

  /** What intake stores of the request: the repository, the reviewer and the card every time, the author with the
      first one only; the rest of a row stays, and a row that stays as it was is not written. */
  lemma IntakeStores(task: string, form: Form, now: nat, taskRead: Option<TaskRow>, sessionRead: Option<Session>)
    ensures
      var w := IntakeWrites(task, form, now, taskRead, sessionRead);
      && w.taskId == task && (w.task.Added? <==> taskRead.None?)
      && (w.task.Unchanged? <==>
        && taskRead.Some? && taskRead.value.repo == form.repo
        && taskRead.value.reviewer == form.reviewer && taskRead.value.card == form.card)
      && (!w.task.Unchanged? ==>
        && w.task.row.repo == form.repo && w.task.row.reviewer == form.reviewer && w.task.row.card == form.card)
      && (w.task.Added? ==>
        && w.task.row.author == form.author && w.task.row.riskLevel == None && w.task.row.phase == "intake"
        && !w.task.row.cancelled && w.task.row.version == 1)
      && (w.task.Changed? ==>
        var was := taskRead.value;
        && w.task.read == was.version && w.task.row.version == was.version + 1
        && w.task.row.author == was.author && w.task.row.riskLevel == was.riskLevel
        && w.task.row.phase == was.phase && w.task.row.cancelled == was.cancelled)
  {
    hide Gaps, QuestionsFor;
  }

  // ---- Answers ----

  /** One extracted line of an answer comment. */
  datatype Reply = Reply(ordinal: nat, text: string, confidence: real)

  datatype AnswerAsk = AnswerAsk(
    round: Option<nat>, comment: string, replies: seq<Reply>, threshold: real, cardLoads: bool)

  /** What the queries of one answer transaction returned. `active` holds the active answer found
      for a question being answered, if any; `accepted` is the join of active answers
      with their question's dimension, own new answers included, in the order the database gave. */
  datatype AnswerReads = AnswerReads(
    session: Option<Session>, round: Option<RoundId>, byOrdinal: map<nat, QuestionId>,
    active: map<QuestionId, (AnswerId, Answer)>, task: Option<TaskRow>, accepted: seq<(Option<Field>, string)>)

  datatype Good = Good(question: QuestionId, text: string)

  /** Replies that match a question of the round and are confident enough. */
  function GoodReplies(replies: seq<Reply>, byOrdinal: map<nat, QuestionId>, threshold: real): seq<Good> {
    if replies == [] then []
    else
      var r := Last(replies);
      GoodReplies(replies[..|replies| - 1], byOrdinal, threshold)
      + (if r.ordinal in byOrdinal && r.confidence >= threshold then [Good(byOrdinal[r.ordinal], r.text)] else [])
  }

  predicate DistinctQuestions(good: seq<Good>) {
    forall i, j :: 0 <= i < j < |good| ==> good[i].question != good[j].question
  }

  function VersionAfter(active: map<QuestionId, (AnswerId, Answer)>, q: QuestionId): nat {
    if q in active then active[q].1.version + 1 else 1
  }

  function NewAnswers(comment: string, good: seq<Good>, active: map<QuestionId, (AnswerId, Answer)>)
    : map<AnswerId, Answer>
  {
    if good == [] then map[]
    else
      var g := Last(good);
      NewAnswers(comment, good[..|good| - 1], active)
        [AnswerId(g.question, comment) := Answer(VersionAfter(active, g.question), false, g.text)]
  }

  ghost predicate IsAnswered(good: seq<Good>, q: QuestionId) {
    exists i :: 0 <= i < |good| && good[i].question == q
  }

  lemma OneMoreAnswers(good: seq<Good>, q: QuestionId)
    requires good != []
    ensures IsAnswered(good, q) <==> IsAnswered(good[..|good| - 1], q) || Last(good).question == q
  {
    var init := good[..|good| - 1];
    if i :| 0 <= i < |init| && init[i].question == q {
      assert good[i].question == q;
    }
    if i :| 0 <= i < |good| && good[i].question == q && i < |init| {
      assert init[i].question == q;
    }
    assert good[|init|] == Last(good);
  }

  /** One new row per reply, when no question is answered twice. */
  lemma {:induction false} NewAnswersMean(comment: string, good: seq<Good>, active: map<QuestionId, (AnswerId, Answer)>)
    requires DistinctQuestions(good)
    ensures forall a :: a in NewAnswers(comment, good, active) <==> a.comment == comment && IsAnswered(good, a.question)
    ensures forall i :: 0 <= i < |good| ==>
      AnswerId(good[i].question, comment) in NewAnswers(comment, good, active)
      && NewAnswers(comment, good, active)[AnswerId(good[i].question, comment)]
        == Answer(if good[i].question in active then active[good[i].question].1.version + 1 else 1, false, good[i].text)
  {
    if good != [] {
      NewAnswersMean(comment, good[..|good| - 1], active);
      forall q
        ensures IsAnswered(good, q) <==> IsAnswered(good[..|good| - 1], q) || Last(good).question == q
      {
        OneMoreAnswers(good, q);
      }
    }
  }

  function Replaced(good: seq<Good>, active: map<QuestionId, (AnswerId, Answer)>): set<AnswerId> {
    set i | 0 <= i < |good| && good[i].question in active :: active[good[i].question].0
  }

  function Merged(card: Card, accepted: seq<(Option<Field>, string)>): Card {
    if accepted == [] then card
    else
      var before := Merged(card, accepted[..|accepted| - 1]);
      var (field, text) := Last(accepted);
      if field.None? then before else before.(fields := before.fields[field.value := Text(text)])
  }

  function LastAnswer(accepted: seq<(Option<Field>, string)>, f: Field): Option<string> {
    if accepted == [] then None
    else if Last(accepted).0 == Some(f) then Some(Last(accepted).1)
    else LastAnswer(accepted[..|accepted| - 1], f)
  }

  /** The last answer to a field counts, and a field with none keeps its value. */
  lemma {:induction false} MergedMeans(card: Card, accepted: seq<(Option<Field>, string)>, f: Field)
    ensures
      var fields := Merged(card, accepted).fields;
      (if f in fields then Some(fields[f]) else None)
        == if LastAnswer(accepted, f).Some? then Some(Text(LastAnswer(accepted, f).value))
           else if f in card.fields then Some(card.fields[f]) else None
    ensures Merged(card, accepted).taskType == card.taskType
  {
    if accepted != [] {
      MergedMeans(card, accepted[..|accepted| - 1], f);
    }
  }

  predicate Listening(ask: AnswerAsk, seen: AnswerReads) {
    && seen.session.Some? && seen.session.value.state == WaitingAnswers
    && ask.round.Some? && seen.round.Some? && seen.session.value.activeRound == seen.round
  }

  /** `handle_answers` and, if something was accepted, `finalize_round`, in one transaction. No value
      means the transaction raised: a repeated key, or a card that does not load. */
  function AnswerWrites(cfg: Config, task: string, ask: AnswerAsk, seen: AnswerReads): Option<Writes> {
    var good := GoodReplies(ask.replies, seen.byOrdinal, ask.threshold);
    if !Listening(ask, seen) || good == [] then Some(Nothing(task))
    else if !DistinctQuestions(good) then None
    else
      var answered := Moved(seen.session.value, AnswersReceived);
      var w := Nothing(task).(
        answers := NewAnswers(ask.comment, good, seen.active), superseded := Replaced(good, seen.active));
      Finalized(cfg, ask, seen, Moved(answered, CompletenessCheck), w)
  }

  function Finalized(cfg: Config, ask: AnswerAsk, seen: AnswerReads, checked: Session, w: Writes): Option<Writes>
    requires seen.session.Some?
  {
    var read := seen.session.value.version;
    if seen.task.None? then Some(w.(session := Changed(read, checked)))
    else
      var card := Merged(seen.task.value.card, seen.accepted);
      var gaps := Gaps(card);
      var w' := w.(task := TaskWrite(seen.task, seen.task.value.(card := card)));
      if gaps == [] then Some(w'.(session := Changed(read, Moved(checked, ReadyForGo))))
      else if checked.roundsCount >= cfg.maxRounds then
        Some(w'.(session := Changed(read, Moved(checked, BlockedManual))))
      else if !ask.cardLoads then None
      else
        Some(w'.(session := Changed(read, RoundOpened(Moved(checked, NeedsMoreInfo))),
                 round := Some(NextRound(checked)),
                 questions := QuestionsFor(NextRound(checked), gaps)))
  }

  /** Answers that come for another round, to a session that does not wait, or with nothing usable, write nothing. */
  lemma AnswersAreIgnored(cfg: Config, task: string, ask: AnswerAsk, seen: AnswerReads)
    requires
      || seen.session.None? || seen.session.value.state != WaitingAnswers
      || ask.round.None? || seen.round.None? || seen.session.value.activeRound != seen.round
      || GoodReplies(ask.replies, seen.byOrdinal, ask.threshold) == []
    ensures AnswerWrites(cfg, task, ask, seen) == Some(Nothing(task))
  {
  }

  /** Accepted answers of a task without a row leave the session at its completeness check. */
  lemma AnswersWithoutTask(cfg: Config, task: string, ask: AnswerAsk, seen: AnswerReads)
    requires Listening(ask, seen) && GoodReplies(ask.replies, seen.byOrdinal, ask.threshold) != []
    requires seen.task.None? && DistinctQuestions(GoodReplies(ask.replies, seen.byOrdinal, ask.threshold))
    ensures
      var w, s := AnswerWrites(cfg, task, ask, seen), seen.session.value;
      && w.Some? && w.value.task.Unchanged? && w.value.round.None?
      && w.value.session
        == Changed(s.version, s.(state := CompletenessCheck, activeRound := None, version := s.version + 2))
  {
    hide GoodReplies, NewAnswers, Replaced, DistinctQuestions;
  }

  /** The rows that go with accepted answers: each supersedes the active answer of its question, if any. */
  lemma AnswersWritten(cfg: Config, task: string, ask: AnswerAsk, seen: AnswerReads, a: AnswerId)
    requires Listening(ask, seen) && GoodReplies(ask.replies, seen.byOrdinal, ask.threshold) != []
    requires AnswerWrites(cfg, task, ask, seen).Some?
    ensures
      var w, good := AnswerWrites(cfg, task, ask, seen).value, GoodReplies(ask.replies, seen.byOrdinal, ask.threshold);
      && w.taskId == task && w.answers == NewAnswers(ask.comment, good, seen.active)
      && (a in w.superseded <==>
        exists i :: 0 <= i < |good| && good[i].question in seen.active && seen.active[good[i].question].0 == a)
      && w.events == map[] && w.outbox == map[] && w.sent == {}
  {
    hide Gaps, GoodReplies, NewAnswers, QuestionsFor, Merged, DistinctQuestions;
  }

  /** What answers decide, once some are accepted and none repeats: ready if the card with the answers
      is complete, blocked if not and the rounds are used up, and otherwise one more round. The
      transaction raises exactly when a question is answered twice, or one more round is due and the
      card does not load. */
  lemma AnswersDecide(cfg: Config, task: string, ask: AnswerAsk, seen: AnswerReads)
    requires Listening(ask, seen) && seen.task.Some? && GoodReplies(ask.replies, seen.byOrdinal, ask.threshold) != []
    ensures
      var s, card := seen.session.value, Merged(seen.task.value.card, seen.accepted);
      var good := GoodReplies(ask.replies, seen.byOrdinal, ask.threshold);
      var w := AnswerWrites(cfg, task, ask, seen);
      && (w.None? <==> !DistinctQuestions(good) || (!Complete(card) && s.roundsCount < cfg.maxRounds && !ask.cardLoads))
      && (w.Some? ==>
        && w.value.session.Changed? && w.value.session.read == s.version
        && w.value.session.row.state ==
          (if Complete(card) then ReadyForGo
           else if s.roundsCount >= cfg.maxRounds then BlockedManual else WaitingAnswers)
        && w.value.session.row.roundsCount == s.roundsCount + (if w.value.round.Some? then 1 else 0)
        && (w.value.round.Some? <==> w.value.session.row.state == WaitingAnswers)
        && (w.value.task.Unchanged? <==> card == seen.task.value.card)
        && (!w.value.task.Unchanged? ==>
          w.value.task.row == seen.task.value.(card := card, version := seen.task.value.version + 1)))
  {
    hide Gaps, Complete, GoodReplies, NewAnswers, Replaced, QuestionsFor, Merged, DistinctQuestions;
    GapsMean(Merged(seen.task.value.card, seen.accepted));
  }

  // ---- Go ----

  datatype GoAsk = GoAsk(user: string, eventId: string, outboxId: nat, now: nat, isMaintainer: bool,
          approvers: seq<string>, highRiskRule: bool)

  /** `replay` and `earlier` are what the two event queries found. */
  datatype GoReads = GoReads(session: Option<Session>, replay: bool, earlier: bool, task: Option<TaskRow>)

  datatype GoAnswer = NotReady | Replay | Duplicate | Decided(auth: Authorization)

  function GoContextOf(ask: GoAsk, task: TaskRow): GoContext {
    GoContext(ask.user, task.author, task.reviewer, "", ask.approvers, ask.isMaintainer)
  }

  function GoOutcome(ask: GoAsk, seen: GoReads): GoAnswer {
    if seen.session.None? then NotReady
    else if seen.replay then Replay
    else if seen.earlier then Duplicate
    else if seen.session.value.state !in {ReadyForGo, GoAuthCheck} then NotReady
    else if seen.task.None? then NotReady
    else
      var task := seen.task.value;
      Decided(Decide(Matched(GoContextOf(ask, task)), task.riskLevel == Some(High), ask.highRiskRule))
  }

  function ApprovedFrom(s: Session): Session {
    Moved(if s.state == ReadyForGo then Moved(s, GoAuthCheck) else s, Approved)
  }

  function GoWrites(task: string, ask: GoAsk, seen: GoReads): Writes {
    var out, w := GoOutcome(ask, seen), Nothing(task);
    if out.NotReady? || out.Replay? then w
    else
      var s := seen.session.value;
      if out.Duplicate? then
        w.(events := map[ask.eventId := GoEvent(s.id, task, ask.user, None, IgnoredDuplicate, false, false)])
      else
        var a := out.auth;
        var decision := if a.authorized then Authorized else Rejected;
        var event := GoEvent(s.id, task, ask.user, a.rule, decision, a.authorized, a.highRiskApplied);
        if !a.authorized then w.(events := map[ask.eventId := event])
        else
          w.(session := Changed(s.version, ApprovedFrom(s)),
             events := map[ask.eventId := event],
             outbox := map[ask.outboxId := OutboxRow(RunTaskPhase(task, "plan"), ask.now, false)])
  }

  /** The event is new, nothing was authorised before, the session is ready and its task exists. */
  predicate IsHeard(seen: GoReads) {
    && seen.session.Some? && !seen.replay && !seen.earlier
    && seen.session.value.state in {ReadyForGo, GoAuthCheck} && seen.task.Some?
  }

  /** Who is let through, by the task's row: a maintainer, its reviewer, its author or an approver; for a high-risk
      task under the strict setting a maintainer or its reviewer. */
  predicate IsAdmitted(ask: GoAsk, task: TaskRow) {
    && ask.user != ""
    && (ask.isMaintainer || ask.user in {task.reviewer, task.author} || ask.user in ask.approvers)
    && (task.riskLevel == Some(High) && ask.highRiskRule ==> ask.isMaintainer || ask.user == task.reviewer)
  }

  /** Whom the user is taken for: the first that fits. */
  function TakenFor(ask: GoAsk, task: TaskRow): Option<Rule> {
    if ask.user == "" then None
    else if ask.isMaintainer then Some(Maintainer)
    else if ask.user == task.reviewer then Some(Reviewer)
    else if ask.user == task.author then Some(Creator)
    else if ask.user in ask.approvers then Some(AiGoApprovers)
    else None
  }

  /** The decision on a command that is heard, by the task's row. */
  lemma GoIsDecided(ask: GoAsk, seen: GoReads)
    requires IsHeard(seen)
    ensures GoOutcome(ask, seen) == Decided(
      Authorization(IsAdmitted(ask, seen.task.value), TakenFor(ask, seen.task.value),
                    seen.task.value.riskLevel == Some(High) && ask.highRiskRule))
  {
    AuthorizedIff(GoContextOf(ask, seen.task.value), seen.task.value.riskLevel == Some(High), ask.highRiskRule);
    hide Matched, FirstOf;
  }

  /** What /go decides. The task is started, with its session approved, its intention written and the
      event recorded as authorised, exactly if the command is heard and its user admitted; anything
      else starts nothing, and a command that is heard or comes after a start is recorded. Nothing else is
      written. */
  lemma GoDecides(task: string, ask: GoAsk, seen: GoReads)
    ensures
      var w, heard := GoWrites(task, ask, seen), IsHeard(seen);
      var late := seen.session.Some? && !seen.replay && seen.earlier;
      var starts := heard && IsAdmitted(ask, seen.task.value);
      && (starts <==> w.session.Changed?)
      && (starts ==>
        var s := seen.session.value;
        && w.session.read == s.version
        && w.outbox == map[ask.outboxId := OutboxRow(RunTaskPhase(task, "plan"), ask.now, false)]
        && w.session.row == s.(state := Approved, activeRound := None,
                               version := s.version + if s.state == ReadyForGo then 2 else 1))
      && (!starts ==> w.session.Unchanged? && w.outbox == map[])
      && w.events.Keys == (if heard || late then {ask.eventId} else {})
      && (heard ==>
        && w.events[ask.eventId].authorized == starts
        && w.events[ask.eventId].decision == (if starts then Authorized else Rejected)
        && w.events[ask.eventId].rule == TakenFor(ask, seen.task.value)
        && w.events[ask.eventId].highRiskApplied == (seen.task.value.riskLevel == Some(High) && ask.highRiskRule))
      && (late ==>
        w.events[ask.eventId].decision == IgnoredDuplicate && !w.events[ask.eventId].authorized)
      && (forall e :: e in w.events ==>
        w.events[e].session == seen.session.value.id && w.events[e].task == task && w.events[e].user == ask.user)
      && w == Nothing(task).(session := w.session, events := w.events, outbox := w.outbox)
  {
    if IsHeard(seen) {
      GoIsDecided(ask, seen);
    }
    hide Matched, FirstOf, Decide;
  }

  /** What the caller is told, when nothing is decided. */
  lemma GoIsTold(ask: GoAsk, seen: GoReads)
    ensures GoOutcome(ask, seen).Decided? <==> IsHeard(seen)
    ensures GoOutcome(ask, seen).Replay? <==> seen.session.Some? && seen.replay
    ensures GoOutcome(ask, seen).Duplicate? <==> seen.session.Some? && !seen.replay && seen.earlier
  {
  }

  // ---- Cancel, plan progress, relay ----

  function CancelWrites(task: string, sessionRead: Option<Session>, taskRead: Option<TaskRow>): Option<Writes> {
    if sessionRead.Some? && !CanTransition(sessionRead.value.state, Cancelled) then None
    else
      Some(Nothing(task).(
        session :=
          if sessionRead.None? then Unchanged
          else Changed(sessionRead.value.version, Moved(sessionRead.value, Cancelled)),
        task := if taskRead.None? then Unchanged else TaskWrite(taskRead, taskRead.value.(cancelled := true))))
  }

  function ProgressWrites(task: string, phase: string, taskRead: Option<TaskRow>): Writes {
    Nothing(task).(task := if taskRead.None? then Unchanged else TaskWrite(taskRead, taskRead.value.(phase := phase)))
  }

  /** Cancelling closes an open session and marks the task; it is refused exactly for a closed session. */
  lemma CancelDecides(task: string, sessionRead: Option<Session>, taskRead: Option<TaskRow>)
    ensures
      var w := CancelWrites(task, sessionRead, taskRead);
      && (w.None? <==> sessionRead.Some? && sessionRead.value.state in TERMINAL)
      && (w.Some? ==>
        && (sessionRead.None? <==> w.value.session.Unchanged?)
        && (sessionRead.Some? ==>
          && w.value.session.Changed? && w.value.session.read == sessionRead.value.version
          && w.value.session.row == sessionRead.value.(state := Cancelled, activeRound := None,
                                                       version := sessionRead.value.version + 1))
        && (w.value.task.Unchanged? <==> taskRead.None? || taskRead.value.cancelled)
        && (!w.value.task.Unchanged? ==>
          && w.value.task.Changed? && w.value.task.read == taskRead.value.version
          && w.value.task.row == taskRead.value.(cancelled := true, version := taskRead.value.version + 1))
        && w.value == Nothing(task).(session := w.value.session, task := w.value.task))
  {
  }

  /** Progress of a plan changes the phase of the task, if it is another one. */
  lemma ProgressDecides(task: string, phase: string, taskRead: Option<TaskRow>)
    ensures
      var w := ProgressWrites(task, phase, taskRead);
      && (w.task.Unchanged? <==> taskRead.None? || taskRead.value.phase == phase)
      && (!w.task.Unchanged? ==>
        && w.task.Changed? && w.task.read == taskRead.value.version
        && w.task.row == taskRead.value.(phase := phase, version := taskRead.value.version + 1))
      && w == Nothing(task).(task := w.task)
  {
  }

  function RelayWrites(ids: set<nat>): Writes { Nothing("").(sent := ids) }

  /** A committed relay has marked the rows it lists, and changed nothing else. */
  lemma RelayDecides(db: Db, ids: set<nat>, i: nat)
    ensures
      var db' := Apply(db, RelayWrites(ids));
      && db' == db.(outbox := db'.outbox) && db'.outbox.Keys == db.outbox.Keys
      && (i in db.outbox ==> db'.outbox[i] == db.outbox[i].(sent := db.outbox[i].sent || i in ids))
  {
    assert db.questions + map[] == db.questions && db.events + map[] == db.events;
    assert Superseded(db.answers, {}) + map[] == db.answers;
    assert MarkedSent(db.outbox, ids) + map[] == MarkedSent(db.outbox, ids);
  }
}
