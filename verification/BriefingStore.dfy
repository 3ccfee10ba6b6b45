/** The briefing transactions as the program runs them: handlers that change a loaded session row, a
    store that checks each transition and collects new rows (app/briefing_store.py,
    app/orchestrator.py). Each handler is proved to write exactly what its function in Briefing says,
    and never to ask for a transition the state machine refuses. */
module BriefingStore {
  import opened Wrappers
  import opened Contracts
  import opened BriefingFsm
  import opened Ids
  import opened GoAuthorizer
  import opened BriefingSchema
  import opened Briefing

  /** A session row in memory. */
  class SessionRow {
    const id: SessionId
    const task: string
    const created: nat
    var state: State
    var roundsCount: nat
    var activeRound: Option<RoundId>
    var version: nat

    constructor Load(s: Session)
      ensures Value() == s
    {
      id, task, created := s.id, s.task, s.created;
      state, roundsCount, activeRound, version := s.state, s.roundsCount, s.activeRound, s.version;
    }

    constructor Create(taskId: string, now: nat)
      ensures Value() == Fresh(taskId, now)
    {
      id, task, created := SessionId(taskId), taskId, now;
      state, roundsCount, activeRound, version := New, 0, None, 1;
    }

    function Value(): Session
      reads this
    {
      Session(id, task, state, roundsCount, activeRound, version, created)
    }
  }

  /** The new rows of one transaction. */
  class Store {
    var round: Option<RoundId>
    var questions: map<QuestionId, Question>
    var answers: map<AnswerId, Answer>
    var superseded: set<AnswerId>
    var events: map<string, GoEvent>
    var outbox: map<nat, OutboxRow>

    constructor ()
      ensures round == None && questions == map[] && answers == map[] && superseded == {} && events == map[]
        && outbox == map[]
    {
      round, questions, answers, superseded, events, outbox := None, map[], map[], {}, map[], map[];
    }

    /** The writes `w` with this store's rows. */
    function Rows(w: Writes): Writes
      reads this
    {
      w.(round := round, questions := questions, answers := answers, superseded := superseded,
         events := events, outbox := outbox)
    }

    /** Moves the row, or refuses and leaves it alone. Each flush steps the version. */
    method Transition(s: SessionRow, to: State) returns (ok: bool)
      modifies s
      ensures ok == CanTransition(old(s.state), to)
      ensures s.Value() == if ok then Moved(old(s.Value()), to) else old(s.Value())
    {
      ok := CanTransition(s.state, to);
      if ok {
        s.state := to;
        if to != WaitingAnswers {
          s.activeRound := None;
        }
        s.version := s.version + 1;
      }
    }

    method AddRound(s: SessionRow) returns (r: RoundId)
      modifies s, `round
      ensures r == NextRound(old(s.Value())) && s.Value() == WithRound(old(s.Value())) && round == Some(r)
    {
      s.roundsCount := s.roundsCount + 1;
      r := RoundId(s.id, s.roundsCount);
      round := Some(r);
      s.activeRound := Some(r);
      s.version := s.version + 1;
    }

    method AddQuestion(r: RoundId, ordinal: nat, dimension: Field)
      modifies `questions
      ensures questions == old(questions)[QuestionId(r, ordinal) := Question(Some(dimension), true, false)]
    {
      questions := questions[QuestionId(r, ordinal) := Question(Some(dimension), true, false)];
    }

    /** A new answer replaces the active one, if any: an earlier row, or one of this transaction. The
        key must be new. */
    method RecordAnswer(q: QuestionId, comment: string, text: string, active: map<QuestionId, (AnswerId, Answer)>)
      returns (ok: bool)
      modifies `answers, `superseded
      ensures ok == (AnswerId(q, comment) !in old(answers))
      ensures ok ==>
        && answers == old(answers)[AnswerId(q, comment) := Answer(VersionAfter(active, q), false, text)]
        && superseded == old(superseded) + if q in active then {active[q].0} else {}
    {
      var id := AnswerId(q, comment);
      if id in answers {
        return false;
      }
      var version := 1;
      if q in active {
        version := active[q].1.version + 1;
        superseded := superseded + {active[q].0};
      }
      answers := answers[id := Answer(version, false, text)];
      return true;
    }

    method AddGoEvent(id: string, event: GoEvent)
      modifies `events
      ensures events == old(events)[id := event]
    {
      events := events[id := event];
    }

    method AddOutbox(id: nat, job: Job, now: nat)
      modifies `outbox
      ensures outbox == old(outbox)[id := OutboxRow(job, now, false)]
    {
      outbox := outbox[id := OutboxRow(job, now, false)];
    }
  }

  // ---- Completeness ----

  method MissingFields(card: Card) returns (missing: seq<Field>)
    ensures missing == Gaps(card)
  {
    var fields := RequiredFields(card.taskType);
    missing := [];
    for i := 0 to |fields|
      invariant missing == MissingOf(card, fields[..i])
    {
      assert fields[..i + 1][..i] == fields[..i];
      if Missing(card, fields[i]) {
        missing := missing + [fields[i]];
      }
    }
    assert fields[..|fields|] == fields;
  }

  // ---- Rounds ----

  method OpenRound(store: Store, s: SessionRow, gaps: seq<Field>)
    requires s.state in {New, NeedsMoreInfo} && store.questions == map[]
    modifies s, store`round, store`questions
    ensures s.Value() == RoundOpened(old(s.Value()))
    ensures store.round == Some(NextRound(old(s.Value())))
    ensures store.questions == QuestionsFor(NextRound(old(s.Value())), gaps)
  {
    var ok := true;
    if s.state == New {
      ok := store.Transition(s, QuestionsGenerated);
    }
    assert ok;
    var r := store.AddRound(s);
    ghost var asking := s.Value();
    for i := 0 to |gaps|
      invariant store.questions == QuestionsFor(r, gaps[..i])
      invariant store.round == Some(r) && s.Value() == asking
    {
      store.AddQuestion(r, i + 1, gaps[i]);
      OneMoreQuestionFor(r, gaps, i);
    }
    assert gaps[..|gaps|] == gaps;
    ok := store.Transition(s, WaitingAnswers);
    assert ok;
  }

  lemma OneMoreQuestionFor(r: RoundId, gaps: seq<Field>, i: nat)
    requires i < |gaps|
    ensures QuestionsFor(r, gaps[..i + 1])
      == QuestionsFor(r, gaps[..i])[QuestionId(r, i + 1) := Question(Some(gaps[i]), true, false)]
  {
    hide QuestionsFor;
    var before, after := QuestionsFor(r, gaps[..i]), QuestionsFor(r, gaps[..i + 1]);
    var more := before[QuestionId(r, i + 1) := Question(Some(gaps[i]), true, false)];
    QuestionsForMean(r, gaps[..i + 1]);
    QuestionsForMean(r, gaps[..i]);
    forall q
      ensures q in after <==> q in more
      ensures q in after ==> after[q] == more[q]
    {
      assert q.round == r && q.ordinal == i + 1 ==> q == QuestionId(r, i + 1);
    }
    assert after.Keys == more.Keys;
  }

  // ---- Intake ----

  method IntakeTask(task: string, form: Form, now: nat, taskRead: Option<TaskRow>, sessionRead: Option<Session>)
    returns (w: Writes)
    ensures w == IntakeWrites(task, form, now, taskRead, sessionRead)
  {
    w := Nothing(task).(task := TaskWrite(taskRead, TaskAfterIntake(form, taskRead)));
    var s: SessionRow;
    if sessionRead.Some? {
      s := new SessionRow.Load(sessionRead.value);
    } else {
      s := new SessionRow.Create(task, now);
    }
    if s.state != New {
      return;
    }
    var store := new Store();
    var gaps := MissingFields(form.card);
    if gaps == [] {
      var ok := store.Transition(s, CompletenessCheck);
      assert ok;
      ok := store.Transition(s, ReadyForGo);
      assert ok;
    } else {
      OpenRound(store, s, gaps);
    }
    w := store.Rows(w).(
      session := if sessionRead.Some? then Changed(sessionRead.value.version, s.Value()) else Added(s.Value()));
  }

  // ---- Go ----

  method HandleGo(task: string, ask: GoAsk, seen: GoReads) returns (w: Writes, out: GoAnswer)
    ensures w == GoWrites(task, ask, seen) && out == GoOutcome(ask, seen)
  {
    w := Nothing(task);
    if seen.session.None? {
      return w, NotReady;
    }
    var s := new SessionRow.Load(seen.session.value);
    var store := new Store();
    if seen.replay {
      return w, Replay;
    }
    if seen.earlier {
      store.AddGoEvent(ask.eventId, GoEvent(s.id, task, ask.user, None, IgnoredDuplicate, false, false));
      return store.Rows(w), Duplicate;
    }
    if s.state !in {ReadyForGo, GoAuthCheck} || seen.task.None? {
      return w, NotReady;
    }
    var a := Authorize(GoContextOf(ask, seen.task.value), seen.task.value.riskLevel == Some(High), ask.highRiskRule);
    var decision := if a.authorized then Authorized else Rejected;
    store.AddGoEvent(ask.eventId, GoEvent(s.id, task, ask.user, a.rule, decision, a.authorized, a.highRiskApplied));
    if a.authorized {
      if s.state == ReadyForGo {
        var ok := store.Transition(s, GoAuthCheck);
        assert ok;
      }
      var ok := store.Transition(s, Approved);
      assert ok;
      store.AddOutbox(ask.outboxId, RunTaskPhase(task, "plan"), ask.now);
      w := w.(session := Changed(seen.session.value.version, s.Value()));
    }
    return store.Rows(w), Decided(a);
  }

  // ---- Cancellation ----

  method CancelTask(task: string, sessionRead: Option<Session>, taskRead: Option<TaskRow>) returns (w: Option<Writes>)
    ensures w == CancelWrites(task, sessionRead, taskRead)
    ensures sessionRead.Some? && sessionRead.value.state !in TERMINAL ==> w.Some?
  {
    var writes := Nothing(task);
    if sessionRead.Some? {
      var s := new SessionRow.Load(sessionRead.value);
      var store := new Store();
      var ok := store.Transition(s, Cancelled);
      if !ok {
        return None;
      }
      writes := writes.(session := Changed(sessionRead.value.version, s.Value()));
    }
    if taskRead.Some? {
      writes := writes.(task := TaskWrite(taskRead, taskRead.value.(cancelled := true)));
    }
    return Some(writes);
  }

  // ---- Answers ----

  method AcceptedReplies(replies: seq<Reply>, byOrdinal: map<nat, QuestionId>, threshold: real)
    returns (good: seq<Good>)
    ensures good == GoodReplies(replies, byOrdinal, threshold)
  {
    good := [];
    for i := 0 to |replies|
      invariant good == GoodReplies(replies[..i], byOrdinal, threshold)
    {
      assert replies[..i + 1][..i] == replies[..i];
      var r := replies[i];
      if r.ordinal in byOrdinal && r.confidence >= threshold {
        good := good + [Good(byOrdinal[r.ordinal], r.text)];
      }
    }
    assert replies[..|replies|] == replies;
  }

  /** Records one answer per reply. A question that comes up again raises, since its answer's key is
      taken. */
  method RecordAnswers(store: Store, comment: string, good: seq<Good>, active: map<QuestionId, (AnswerId, Answer)>)
    returns (ok: bool)
    requires store.answers == map[] && store.superseded == {}
    modifies store`answers, store`superseded
    ensures ok == DistinctQuestions(good)
    ensures ok ==> store.answers == NewAnswers(comment, good, active) && store.superseded == Replaced(good, active)
  {
    for i := 0 to |good|
      invariant DistinctQuestions(good[..i])
      invariant store.answers == NewAnswers(comment, good[..i], active)
      invariant store.superseded == Replaced(good[..i], active)
    {
      OneMoreAnswer(comment, good, i, active);
      ok := store.RecordAnswer(good[i].question, comment, good[i].text, active);
      if !ok {
        return;
      }
    }
    assert good[..|good|] == good;
    return true;
  }

  lemma OneMoreAnswer(comment: string, good: seq<Good>, i: nat, active: map<QuestionId, (AnswerId, Answer)>)
    requires i < |good| && DistinctQuestions(good[..i])
    ensures
      var id := AnswerId(good[i].question, comment);
      var row := Answer(VersionAfter(active, good[i].question), false, good[i].text);
      NewAnswers(comment, good[..i + 1], active) == NewAnswers(comment, good[..i], active)[id := row]
    ensures Replaced(good[..i + 1], active)
      == Replaced(good[..i], active) + if good[i].question in active then {active[good[i].question].0} else {}
    ensures AnswerId(good[i].question, comment) !in NewAnswers(comment, good[..i], active) <==>
      DistinctQuestions(good[..i + 1])
    ensures !DistinctQuestions(good[..i + 1]) ==> !DistinctQuestions(good)
  {
    NewAnswersMean(comment, good[..i], active);
    assert good[..i + 1][..i] == good[..i];
    OneMoreReplaced(good, i, active);
    if AnswerId(good[i].question, comment) in NewAnswers(comment, good[..i], active) {
      var j :| 0 <= j < i && good[..i][j].question == good[i].question;
      assert good[..i + 1][j].question == good[..i + 1][i].question;
    }
  }

  lemma OneMoreReplaced(good: seq<Good>, i: nat, active: map<QuestionId, (AnswerId, Answer)>)
    requires i < |good|
    ensures Replaced(good[..i + 1], active)
      == Replaced(good[..i], active) + if good[i].question in active then {active[good[i].question].0} else {}
  {
    assert forall j :: 0 <= j < i ==> good[..i + 1][j] == good[..i][j];
    assert good[..i + 1][i] == good[i];
  }

  method MergeAnswers(card: Card, accepted: seq<(Option<Field>, string)>) returns (merged: Card)
    ensures merged == Merged(card, accepted)
  {
    merged := card;
    for i := 0 to |accepted|
      invariant merged == Merged(card, accepted[..i])
    {
      assert accepted[..i + 1][..i] == accepted[..i];
      if accepted[i].0.Some? {
        merged := merged.(fields := merged.fields[accepted[i].0.value := Text(accepted[i].1)]);
      }
    }
    assert accepted[..|accepted|] == accepted;
  }

  /** Completeness after answers: ready, blocked for a human, or one more round. No value means the
      transaction raised. */
  method FinalizeRound(cfg: Config, ask: AnswerAsk, seen: AnswerReads, store: Store, s: SessionRow)
    returns (task: Option<RowWrite<TaskRow>>)
    requires seen.session.Some? && store.round == None && store.questions == map[]
    modifies s, store`round, store`questions
    ensures old(s.state) != AnswersReceived ==>
      task == Some(Unchanged) && s.Value() == old(s.Value()) && store.round == None
    ensures old(s.state) == AnswersReceived ==> forall w: Writes ::
      w.task == Unchanged && w.round == None && w.questions == map[] ==>
        Finalized(cfg, ask, seen, Moved(old(s.Value()), CompletenessCheck), w)
          == if task.None? then None
             else Some(w.(task := task.value, session := Changed(seen.session.value.version, s.Value()),
                          round := store.round, questions := store.questions))
  {
    if s.state != AnswersReceived {
      return Some(Unchanged);
    }
    var ok := store.Transition(s, CompletenessCheck);
    assert ok;
    if seen.task.None? {
      return Some(Unchanged);
    }
    var card := MergeAnswers(seen.task.value.card, seen.accepted);
    var write := TaskWrite(seen.task, seen.task.value.(card := card));
    var gaps := MissingFields(card);
    if gaps == [] {
      ok := store.Transition(s, ReadyForGo);
      assert ok;
    } else if s.roundsCount >= cfg.maxRounds {
      ok := store.Transition(s, BlockedManual);
      assert ok;
    } else {
      ok := store.Transition(s, NeedsMoreInfo);
      assert ok;
      if !ask.cardLoads {
        return None;
      }
      OpenRound(store, s, gaps);
    }
    return Some(write);
  }

  lemma WaitingTakesAnswers()
    ensures CanTransition(WaitingAnswers, AnswersReceived)
  {
  }

  /** `handle_answers`, then `finalize_round` if anything was accepted, in one transaction. */
  method RunCommand(cfg: Config, task: string, ask: AnswerAsk, seen: AnswerReads) returns (w: Option<Writes>)
    ensures w == AnswerWrites(cfg, task, ask, seen)
  {
    hide GoodReplies, NewAnswers, Replaced, Merged, Gaps, QuestionsFor;
    if seen.session.None? || seen.session.value.state != WaitingAnswers {
      return Some(Nothing(task));
    }
    var s := new SessionRow.Load(seen.session.value);
    if ask.round.None? || seen.round.None? || s.activeRound != seen.round {
      return Some(Nothing(task));
    }
    var good := AcceptedReplies(ask.replies, seen.byOrdinal, ask.threshold);
    var store := new Store();
    var ok := RecordAnswers(store, ask.comment, good, seen.active);
    if !ok {
      return None;
    }
    if good == [] {
      return Some(Nothing(task));
    }
    hide DistinctQuestions, Edges;
    ok := store.Transition(s, AnswersReceived);
    assert ok by {
      WaitingTakesAnswers();
    }
    var base := Nothing(task).(answers := store.answers, superseded := store.superseded);
    var write := FinalizeRound(cfg, ask, seen, store, s);
    assert Finalized(cfg, ask, seen, Moved(Moved(seen.session.value, AnswersReceived), CompletenessCheck), base)
      == if write.None? then None
         else Some(base.(task := write.value, session := Changed(seen.session.value.version, s.Value()),
                         round := store.round, questions := store.questions));
    if write.None? {
      return None;
    }
    var session := Changed(seen.session.value.version, s.Value());
    return Some(store.Rows(Nothing(task).(task := write.value, session := session)));
  }
}
