/** What every run of the briefing transactions keeps: the invariant of one state, how states grow,
    and the proof that every commit of every transaction respects both. The proof is cut so that each
    lemma sees only the part of the invariant it is about; `hide` keeps the other parts closed. */
module BriefingInvariant {
  import opened Wrappers
  import opened BriefingFsm
  import opened Ids
  import opened GoAuthorizer
  import opened BriefingSchema
  import opened Briefing
  import opened BriefingRuns

  // ---- Invariants of one state ----

  function MostRounds(cfg: Config): nat { if cfg.maxRounds > 1 then cfg.maxRounds else 1 }

  /** Transitions a session has made when it stands in `state` after `rounds` rounds. */
  ghost predicate MovesAre(state: State, rounds: nat, moves: int) {
    match state
    case WaitingAnswers => rounds >= 1 && moves == 4 * rounds - 2
    case ReadyForGo => moves == if rounds == 0 then 2 else 4 * rounds + 1
    case Approved => moves == if rounds == 0 then 4 else 4 * rounds + 3
    case BlockedManual => rounds >= 1 && moves == 4 * rounds + 1
    case Cancelled => moves == (if rounds == 0 then 3 else 4 * rounds + 2) || (rounds >= 1 && moves == 4 * rounds - 1)
    case _ => false
  }

  /** The version column counts flushes: one to insert, one per transition, one per round. */
  function Moves(s: Session): int { s.version - 1 - s.roundsCount }

  ghost predicate SessionShape(cfg: Config, s: Session) {
    && s.id == SessionId(s.task)
    && s.roundsCount <= MostRounds(cfg)
    && s.activeRound == (if s.state == WaitingAnswers then Some(RoundId(s.id, s.roundsCount)) else None)
    && MovesAre(s.state, s.roundsCount, Moves(s))
  }

  ghost predicate SessionsInv(cfg: Config, db: Db) {
    forall id :: id in db.sessions ==> db.sessions[id].id == id && SessionShape(cfg, db.sessions[id])
  }

  ghost predicate RoundsInv(db: Db) {
    forall r :: r in db.rounds <==> r.session in db.sessions && 1 <= r.number <= db.sessions[r.session].roundsCount
  }

  /** The round is the one its session is waiting on. */
  ghost predicate IsActive(db: Db, r: RoundId) {
    r.session in db.sessions && db.sessions[r.session].activeRound == Some(r)
  }

  ghost predicate AnswersInv(db: Db) {
    && (forall a :: a in db.answers ==>
      !IsActive(db, a.question.round) && !db.answers[a].superseded && db.answers[a].version == 1)
    && (forall a, b :: a in db.answers && b in db.answers && a.question == b.question ==> a == b)
  }

  ghost predicate IsApproved(db: Db, s: SessionId) {
    s in db.sessions && db.sessions[s].state == Approved
  }

  /** Whoever was let through belongs to an approved session of the same task. */
  ghost predicate EventsApproved(db: Db) {
    forall e :: e in db.events && db.events[e].authorized ==>
      IsApproved(db, db.events[e].session) && db.events[e].session == SessionId(db.events[e].task)
  }

  ghost predicate ApprovedHasEvent(db: Db) {
    forall s :: IsApproved(db, s) ==> HasAuthorized(db, s)
  }

  ghost predicate NoHighRisk(db: Db) {
    forall e :: e in db.events ==> !db.events[e].highRiskApplied
  }

  ghost predicate EventsInv(db: Db) {
    EventsApproved(db) && OneAuthorizedGo(db) && ApprovedHasEvent(db) && NoHighRisk(db)
  }

  ghost predicate HasPlan(db: Db, task: string) {
    exists i :: i in db.outbox && db.outbox[i].job.task == task
  }

  ghost predicate PlansApproved(db: Db) {
    forall i :: i in db.outbox ==>
      db.outbox[i].job.phase == "plan" && IsApproved(db, SessionId(db.outbox[i].job.task))
  }

  ghost predicate OnePlan(db: Db) {
    forall i, j :: i in db.outbox && j in db.outbox && db.outbox[i].job.task == db.outbox[j].job.task ==> i == j
  }

  ghost predicate ApprovedHasPlan(db: Db) {
    forall s :: IsApproved(db, s) ==> HasPlan(db, s.task)
  }

  ghost predicate OutboxInv(db: Db) {
    PlansApproved(db) && OnePlan(db) && ApprovedHasPlan(db)
  }

  ghost predicate TasksInv(db: Db) {
    forall t :: t in db.tasks ==> db.tasks[t].riskLevel == None
  }

  ghost predicate Inv(cfg: Config, db: Db) {
    && ForeignKeys(db) && SessionsInv(cfg, db) && RoundsInv(db) && AnswersInv(db)
    && EventsInv(db) && OutboxInv(db) && TasksInv(db)
  }

  // ---- How states grow ----

  /** Rows are never deleted; a session row changes only by moving on, with its version, and never once
      terminal. */
  ghost predicate SessionGrows(s: Session, s': Session) {
    && s.version <= s'.version && s.roundsCount <= s'.roundsCount
    && (s.version == s'.version || s.state in TERMINAL ==> s' == s)
    && (s' != s ==> Moves(s) < Moves(s'))
  }

  ghost predicate TaskGrows(t: TaskRow, t': TaskRow) {
    t.version <= t'.version && (t.version == t'.version ==> t' == t)
  }

  ghost predicate Grows(db: Db, db': Db) {
    && (forall t :: t in db.tasks ==> t in db'.tasks && TaskGrows(db.tasks[t], db'.tasks[t]))
    && (forall s :: s in db.sessions ==> s in db'.sessions && SessionGrows(db.sessions[s], db'.sessions[s]))
    && db.rounds <= db'.rounds
    && (forall a :: a in db.answers ==> a in db'.answers && db'.answers[a] == db.answers[a])
    && (forall e :: e in db.events ==> e in db'.events && db'.events[e] == db.events[e])
    && (forall i :: i in db.outbox ==> i in db'.outbox && OutboxGrows(db.outbox[i], db'.outbox[i]))
  }

  ghost predicate OutboxGrows(r: OutboxRow, r': OutboxRow) {
    r'.job == r.job && r'.created == r.created && (r.sent ==> r'.sent)
  }

  lemma GrowsChains(a: Db, b: Db, c: Db)
    requires Grows(a, b) && Grows(b, c)
    ensures Grows(a, c)
  {
    forall s | s in a.sessions
      ensures s in c.sessions && SessionGrows(a.sessions[s], c.sessions[s])
    {
      assert SessionGrows(a.sessions[s], b.sessions[s]);
      assert SessionGrows(b.sessions[s], c.sessions[s]);
    }
    forall t | t in a.tasks
      ensures t in c.tasks && TaskGrows(a.tasks[t], c.tasks[t])
    {
      assert TaskGrows(a.tasks[t], b.tasks[t]);
      assert TaskGrows(b.tasks[t], c.tasks[t]);
    }
    forall i | i in a.outbox
      ensures i in c.outbox && OutboxGrows(a.outbox[i], c.outbox[i])
    {
      assert OutboxGrows(a.outbox[i], b.outbox[i]);
      assert OutboxGrows(b.outbox[i], c.outbox[i]);
    }
  }

  ghost predicate GoodHistory(cfg: Config, history: seq<Db>) {
    && |history| > 0
    && (forall i :: 0 <= i < |history| ==> Inv(cfg, history[i]))
    && (forall i, j :: 0 <= i <= j < |history| ==> Grows(history[i], history[j]))
  }

  /** A row read earlier is the committed row, if the version still matches. */
  lemma ReadIsCurrent(cfg: Config, history: seq<Db>, m: nat, s: Session)
    requires GoodHistory(cfg, history) && m < |history|
    requires s.id in history[m].sessions && history[m].sessions[s.id] == s
    requires s.id in Last(history).sessions && Last(history).sessions[s.id].version == s.version
    ensures Last(history).sessions[s.id] == s
  {
    assert Grows(history[m], Last(history)) by {
      GrowsToLast(cfg, history, m);
    }
    hide GoodHistory, Inv;
    assert SessionGrows(s, Last(history).sessions[s.id]);
  }

  // ---- Preservation, one part of the invariant at a time ----

  lemma NothingSuperseded(answers: map<AnswerId, Answer>)
    ensures Superseded(answers, {}) == answers
  {
  }

  lemma NothingSent(outbox: map<nat, OutboxRow>)
    ensures MarkedSent(outbox, {}) == outbox
  {
  }

  /** The same sessions are approved. */
  ghost predicate SameApproved(db: Db, db': Db) {
    forall s :: IsApproved(db', s) <==> IsApproved(db, s)
  }

  /** Session `s` has become approved, and no other. */
  ghost predicate NewlyApproved(db: Db, db': Db, s: SessionId) {
    && !IsApproved(db, s)
    && forall t :: IsApproved(db', t) <==> IsApproved(db, t) || t == s
  }

  lemma UnapprovedEventsKeep(db: Db, db': Db, more: map<string, GoEvent>)
    requires EventsInv(db) && SameApproved(db, db') && db'.events == db.events + more && more.Keys !! db.events.Keys
    requires forall e :: e in more ==> !more[e].authorized && !more[e].highRiskApplied
    ensures EventsInv(db')
  {
    assert EventsApproved(db');
    forall s | IsApproved(db', s)
      ensures HasAuthorized(db', s)
    {
      assert HasAuthorized(db, s);
      var e :| e in db.events && db.events[e].authorized && db.events[e].session == s;
      assert db'.events[e] == db.events[e];
    }
  }

  lemma SentRowsKeep(db: Db, db': Db, sent: set<nat>)
    requires OutboxInv(db) && SameApproved(db, db') && db'.outbox == MarkedSent(db.outbox, sent)
    ensures OutboxInv(db')
  {
    assert forall i :: i in db'.outbox ==> i in db.outbox && db'.outbox[i].job == db.outbox[i].job;
    assert PlansApproved(db') && OnePlan(db');
    forall s | IsApproved(db', s)
      ensures HasPlan(db', s.task)
    {
      assert HasPlan(db, s.task);
      var i :| i in db.outbox && db.outbox[i].job.task == s.task;
      assert db'.outbox[i].job == db.outbox[i].job;
    }
  }

  lemma AuthorizedEventKeeps(db: Db, db': Db, s: SessionId, eventId: string, event: GoEvent)
    requires EventsInv(db) && NewlyApproved(db, db', s)
    requires eventId !in db.events && db'.events == db.events[eventId := event]
    requires event.authorized && event.session == s == SessionId(event.task) && !event.highRiskApplied
    ensures EventsInv(db')
  {
    forall e | e in db.events && db.events[e].authorized
      ensures db.events[e].session != s
    {
      assert IsApproved(db, db.events[e].session);
    }
    assert OneAuthorizedGo(db');
    forall t | IsApproved(db', t)
      ensures HasAuthorized(db', t)
    {
      if t == s {
        assert db'.events[eventId].session == t;
      } else {
        assert HasAuthorized(db, t);
        var e :| e in db.events && db.events[e].authorized && db.events[e].session == t;
        assert db'.events[e] == db.events[e];
      }
    }
  }

  lemma PlanRowKeeps(db: Db, db': Db, s: SessionId, id: nat, row: OutboxRow)
    requires OutboxInv(db) && NewlyApproved(db, db', s)
    requires id !in db.outbox && db'.outbox == db.outbox[id := row]
    requires row.job == RunTaskPhase(s.task, "plan")
    ensures OutboxInv(db')
  {
    forall i | i in db.outbox
      ensures db.outbox[i].job.task != s.task
    {
      assert IsApproved(db, SessionId(db.outbox[i].job.task));
      assert SessionId(s.task) == s;
    }
    assert PlansApproved(db') && OnePlan(db');
    forall t | IsApproved(db', t)
      ensures HasPlan(db', t.task)
    {
      if t == s {
        assert db'.outbox[id].job.task == t.task;
      } else {
        assert HasPlan(db, t.task);
        var i :| i in db.outbox && db.outbox[i].job.task == t.task;
        assert db'.outbox[i] == db.outbox[i];
      }
    }
  }

  // ---- Transactions that leave sessions alone ----

  ghost predicate Quiet(w: Writes) {
    && w.session.Unchanged? && w.round.None?
    && w.questions == map[] && w.answers == map[] && w.superseded == {} && w.outbox == map[]
    && (forall e :: e in w.events ==> !w.events[e].authorized && !w.events[e].highRiskApplied)
    && TaskWriteOk(w)
  }

  lemma SameSessionsKeep(cfg: Config, db: Db, db': Db)
    requires SessionsInv(cfg, db) && RoundsInv(db) && AnswersInv(db)
    requires db'.sessions == db.sessions && db'.rounds == db.rounds && db'.answers == db.answers
    ensures SessionsInv(cfg, db') && RoundsInv(db') && AnswersInv(db') && SameApproved(db, db')
  {
    forall r
      ensures IsActive(db', r) <==> IsActive(db, r)
    {
    }
  }

  /** The task row is written with its next version, and never with a risk level. */
  ghost predicate TaskWriteOk(w: Writes) {
    && (!w.task.Unchanged? ==> w.task.row.riskLevel == None)
    && (w.task.Changed? ==> w.task.row.version == w.task.read + 1)
  }

  lemma TasksKeep(cfg: Config, db: Db, w: Writes)
    requires cfg.versions && TasksInv(db) && TaskFits(cfg, db, w) && TaskWriteOk(w)
    ensures TasksInv(Apply(db, w))
    ensures forall t :: t in db.tasks ==> t in Apply(db, w).tasks && TaskGrows(db.tasks[t], Apply(db, w).tasks[t])
  {
  }

  lemma QuietKeeps(cfg: Config, db: Db, w: Writes)
    requires cfg.versions && Inv(cfg, db) && Fits(cfg, db, w) && Quiet(w)
    ensures Inv(cfg, Apply(db, w)) && Grows(db, Apply(db, w))
  {
    hide ForeignKeys, SessionsInv, RoundsInv, AnswersInv, EventsInv, OutboxInv, TasksInv, TaskGrows;
    hide OneActiveSession, OneActiveAnswer, OneAuthorizedGo, SameApproved;
    var db' := Apply(db, w);
    NothingSuperseded(db.answers);
    SameSessionsKeep(cfg, db, db');
    UnapprovedEventsKeep(db, db', w.events);
    SentRowsKeep(db, db', w.sent);
    TasksKeep(cfg, db, w);
  }

  // ---- A session that moves ----

  /** A later state of the same session, reached from an open one. */
  ghost predicate Moving(cfg: Config, s: Session, s': Session) {
    && s'.id == s.id && s'.task == s.task && s.version < s'.version && s.roundsCount <= s'.roundsCount
      && Moves(s) < Moves(s')
    && s.state !in TERMINAL
    && SessionShape(cfg, s')
  }

  /** `s` is the committed row and `db'` differs in its sessions only by `s'`. */
  ghost predicate Replaces(db: Db, db': Db, s: Session, s': Session) {
    && s.id in db.sessions && db.sessions[s.id] == s && s'.id == s.id
    && db'.sessions == db.sessions[s.id := s']
  }

  lemma MovingKeepsSessions(cfg: Config, db: Db, db': Db, s: Session, s': Session)
    requires Replaces(db, db', s, s') && Moving(cfg, s, s') && SessionsInv(cfg, db)
    ensures SessionsInv(cfg, db')
    ensures forall id :: id in db.sessions ==> id in db'.sessions && SessionGrows(db.sessions[id], db'.sessions[id])
  {
  }

  lemma MovingApproval(db: Db, db': Db, s: Session, s': Session)
    requires Replaces(db, db', s, s') && s.state != Approved
    ensures s'.state != Approved ==> SameApproved(db, db')
    ensures s'.state == Approved ==> NewlyApproved(db, db', s.id)
  {
  }

  /** A round opened for the session, or none. */
  ghost predicate Opens(db: Db, db': Db, s: Session, s': Session, round: Option<RoundId>) {
    if round.None? then s'.roundsCount == s.roundsCount && db'.rounds == db.rounds
    else round.value == NextRound(s) && s'.roundsCount == s.roundsCount + 1 && db'.rounds == db.rounds + {round.value}
  }

  lemma MovingKeepsRounds(db: Db, db': Db, s: Session, s': Session, round: Option<RoundId>)
    requires Replaces(db, db', s, s') && Opens(db, db', s, s', round) && RoundsInv(db)
    ensures RoundsInv(db')
  {
    forall r
      ensures r in db'.rounds <==> r.session in db'.sessions && 1 <= r.number <= db'.sessions[r.session].roundsCount
    {
      assert r in db.rounds <==> r.session in db.sessions && 1 <= r.number <= db.sessions[r.session].roundsCount;
      if round.Some? && r.session == s.id && r.number == s.roundsCount + 1 {
        assert r == round.value;
      }
    }
  }

  /** The session's active round is left, whatever answers it gets are its first, and the round the
      session takes up, if any, is new. */
  lemma MovingKeepsAnswers(db: Db, db': Db, s: Session, s': Session, more: map<AnswerId, Answer>)
    requires Replaces(db, db', s, s') && db'.answers == db.answers + more && AnswersInv(db)
    requires forall a :: a in db.answers ==> a.question.round in db.rounds
    requires s.activeRound.Some? ==> s.activeRound.value in db.rounds && s.activeRound.value.session == s.id
    requires s'.activeRound.Some? ==> s'.activeRound.value !in db.rounds
    requires FirstAnswers(s, more)
    ensures AnswersInv(db')
  {
    forall a | a in db'.answers
      ensures !IsActive(db', a.question.round)
      ensures !db'.answers[a].superseded && db'.answers[a].version == 1
      ensures a !in more ==> s.activeRound != Some(a.question.round)
    {
      if a !in more {
        assert !IsActive(db, a.question.round);
      }
    }
  }

  /** One answer each to questions of the active round. */
  ghost predicate FirstAnswers(s: Session, more: map<AnswerId, Answer>) {
    && (forall a :: a in more ==>
      s.activeRound == Some(a.question.round) && !more[a].superseded && more[a].version == 1)
    && (forall a, b :: a in more && b in more && a.question == b.question ==> a == b)
  }

  lemma AnswersHaveRounds(db: Db)
    requires ForeignKeys(db)
    ensures forall a :: a in db.answers ==> a.question.round in db.rounds
  {
    forall a | a in db.answers
      ensures a.question.round in db.rounds
    {
      assert a.question in db.questions;
    }
  }

  /** A session moves on, answered or not, opening a round or not. */
  lemma MovingKeeps(cfg: Config, db: Db, db': Db, s: Session, s': Session, more: map<AnswerId, Answer>,
          round: Option<RoundId>)
    requires SessionsInv(cfg, db) && RoundsInv(db) && AnswersInv(db) && ForeignKeys(db)
    requires Replaces(db, db', s, s') && Moving(cfg, s, s') && Opens(db, db', s, s', round)
    requires s'.state == WaitingAnswers ==> round.Some?
    requires db'.answers == db.answers + more && FirstAnswers(s, more)
    ensures SessionsInv(cfg, db') && RoundsInv(db') && AnswersInv(db')
    ensures forall id :: id in db.sessions ==> id in db'.sessions && SessionGrows(db.sessions[id], db'.sessions[id])
    ensures s'.state != Approved ==> SameApproved(db, db')
    ensures s'.state == Approved ==> NewlyApproved(db, db', s.id)
  {
    hide ForeignKeys, AnswersInv, SameApproved, NewlyApproved, FirstAnswers;
    assert SessionShape(cfg, s);
    AnswersHaveRounds(db);
    MovingKeepsSessions(cfg, db, db', s, s');
    MovingKeepsRounds(db, db', s, s', round);
    MovingKeepsAnswers(db, db', s, s', more);
    MovingApproval(db, db', s, s');
  }

  // ---- Go ----

  lemma ApprovedIsLater(cfg: Config, s: Session)
    requires SessionShape(cfg, s) && s.state in {ReadyForGo, GoAuthCheck}
    ensures Moving(cfg, s, ApprovedFrom(s)) && ApprovedFrom(s).state == Approved
    ensures ApprovedFrom(s).id == s.id == SessionId(s.task) && ApprovedFrom(s).roundsCount == s.roundsCount
  {
  }

  /** The state after an accepted /go. */
  function Started(db: Db, s: Session, eventId: string, event: GoEvent, outboxId: nat, now: nat): Db {
    db.(sessions := db.sessions[s.id := ApprovedFrom(s)],
        events := db.events[eventId := event],
        outbox := db.outbox[outboxId := OutboxRow(RunTaskPhase(s.task, "plan"), now, false)])
  }

  lemma StartedMoves(cfg: Config, db: Db, db': Db, s: Session)
    requires SessionsInv(cfg, db) && RoundsInv(db) && AnswersInv(db) && ForeignKeys(db)
    requires s.id in db.sessions && db.sessions[s.id] == s && s.state in {ReadyForGo, GoAuthCheck}
    requires db'.sessions == db.sessions[s.id := ApprovedFrom(s)] && db'.rounds == db.rounds
      && db'.answers == db.answers
    ensures SessionsInv(cfg, db') && RoundsInv(db') && AnswersInv(db')
    ensures forall id :: id in db.sessions ==> id in db'.sessions && SessionGrows(db.sessions[id], db'.sessions[id])
    ensures NewlyApproved(db, db', s.id) && s.id == SessionId(s.task)
  {
    assert SessionShape(cfg, s);
    hide ForeignKeys, SessionsInv, RoundsInv, AnswersInv, SessionShape, NewlyApproved, Moving, ApprovedFrom;
    ApprovedIsLater(cfg, s);
    MovingKeeps(cfg, db, db', s, ApprovedFrom(s), map[], None);
  }

  lemma GoKeeps(cfg: Config, db: Db, s: Session, eventId: string, event: GoEvent, outboxId: nat, now: nat)
    requires Inv(cfg, db) && s.id in db.sessions && db.sessions[s.id] == s && s.state in {ReadyForGo, GoAuthCheck}
    requires eventId !in db.events && outboxId !in db.outbox
      && ForeignKeys(Started(db, s, eventId, event, outboxId, now))
    requires event.authorized && event.session == s.id && event.task == s.task && !event.highRiskApplied
    ensures Inv(cfg, Started(db, s, eventId, event, outboxId, now))
      && Grows(db, Started(db, s, eventId, event, outboxId, now))
  {
    hide ForeignKeys, SessionsInv, RoundsInv, AnswersInv, EventsInv, OutboxInv;
    hide NewlyApproved, ApprovedFrom, SessionGrows;
    var db' := Started(db, s, eventId, event, outboxId, now);
    StartedMoves(cfg, db, db', s);
    AuthorizedEventKeeps(db, db', s.id, eventId, event);
    PlanRowKeeps(db, db', s.id, outboxId, db'.outbox[outboxId]);
  }

  function StartWrites(s: Session, eventId: string, event: GoEvent, outboxId: nat, now: nat): Writes {
    Nothing(s.task).(
      session := Changed(s.version, ApprovedFrom(s)),
      events := map[eventId := event],
      outbox := map[outboxId := OutboxRow(RunTaskPhase(s.task, "plan"), now, false)])
  }

  lemma StartEffect(db: Db, s: Session, eventId: string, event: GoEvent, outboxId: nat, now: nat)
    ensures Apply(db, StartWrites(s, eventId, event, outboxId, now)) == Started(db, s, eventId, event, outboxId, now)
  {
    NothingSuperseded(db.answers);
    NothingSent(db.outbox);
    assert db.answers + map[] == db.answers && db.questions + map[] == db.questions;
    assert db.events + map[eventId := event] == db.events[eventId := event];
    var row := OutboxRow(RunTaskPhase(s.task, "plan"), now, false);
    assert db.outbox + map[outboxId := row] == db.outbox[outboxId := row];
  }

  // ---- Answers and cancellation ----

  /** The writes carry an open session forward, and do not start the task. */
  ghost predicate Advances(cfg: Config, s: Session, w: Writes) {
    && w.session.Changed? && Moving(cfg, s, w.session.row) && w.session.row.state != Approved
    && (if w.round.None? then w.session.row.roundsCount == s.roundsCount && w.session.row.state != WaitingAnswers
        else w.round.value == NextRound(s) && w.session.row.roundsCount == s.roundsCount + 1)
    && FirstAnswers(s, w.answers) && w.superseded == {}
    && w.events == map[] && w.outbox == map[] && w.sent == {}
    && TaskWriteOk(w)
  }

  lemma NoStartKeeps(db: Db, db': Db)
    requires EventsInv(db) && OutboxInv(db) && SameApproved(db, db')
    requires db'.events == db.events && db'.outbox == db.outbox
    ensures EventsInv(db') && OutboxInv(db')
  {
    NothingSent(db.outbox);
    UnapprovedEventsKeep(db, db', map[]);
    SentRowsKeep(db, db', {});
  }

  lemma AdvancesKeeps(cfg: Config, db: Db, s: Session, w: Writes)
    requires Inv(cfg, db) && s.id in db.sessions && db.sessions[s.id] == s
    requires cfg.versions && Fits(cfg, db, w) && Advances(cfg, s, w)
    ensures Inv(cfg, Apply(db, w)) && Grows(db, Apply(db, w))
  {
    hide ForeignKeys, SessionsInv, RoundsInv, AnswersInv, EventsInv, OutboxInv, TasksInv, TaskGrows;
    hide OneActiveSession, OneActiveAnswer, OneAuthorizedGo, SameApproved, FirstAnswers, SessionGrows;
    var db' := Apply(db, w);
    NothingSuperseded(db.answers);
    NothingSent(db.outbox);
    MovingKeeps(cfg, db, db', s, w.session.row, w.answers, w.round);
    NoStartKeeps(db, db');
    TasksKeep(cfg, db, w);
  }

  /** The row a transaction updates is the row it read. */
  lemma ReadAtCommit(cfg: Config, history: seq<Db>, m: nat, s: Session, w: Writes)
    requires cfg.versions && GoodHistory(cfg, history) && m < |history|
    requires s.id in history[m].sessions && history[m].sessions[s.id] == s
    requires SessionFits(cfg, Last(history), w)
    requires w.session.Changed? && w.session.row.id == s.id && w.session.read == s.version
    ensures s.id in Last(history).sessions && Last(history).sessions[s.id] == s
  {
    hide Inv;
    ReadIsCurrent(cfg, history, m, s);
  }

  lemma NoRiskRead(cfg: Config, history: seq<Db>, m: nat, task: string)
    requires GoodHistory(cfg, history) && m < |history|
    ensures Lookup(history[m].tasks, task).Some? ==> Lookup(history[m].tasks, task).value.riskLevel == None
  {
    assert Inv(cfg, history[m]);
    hide Inv, ForeignKeys, SessionsInv, RoundsInv, AnswersInv, EventsInv, OutboxInv, Grows;
  }

  // ---- One commit keeps the invariant ----

  /** The session row the writes replace, if any, is still the committed one. */
  ghost predicate Current(db: Db, s: Session, w: Writes) {
    w.session.Changed? ==> s.id in db.sessions && db.sessions[s.id] == s
  }

  lemma GoCommit(cfg: Config, db: Db, task: string, ask: GoAsk, seen: GoReads)
    requires cfg.versions && Inv(cfg, db) && Fits(cfg, db, GoWrites(task, ask, seen))
    requires seen.session.Some? ==>
      seen.session.value.task == task && Current(db, seen.session.value, GoWrites(task, ask, seen))
    requires seen.task.Some? ==> seen.task.value.riskLevel == None
    ensures Inv(cfg, Apply(db, GoWrites(task, ask, seen))) && Grows(db, Apply(db, GoWrites(task, ask, seen)))
  {
    hide Inv, ForeignKeys, OneActiveSession, OneActiveAnswer, OneAuthorizedGo, Apply, Grows, Matched, FirstOf;
    var w, out := GoWrites(task, ask, seen), GoOutcome(ask, seen);
    if out.Decided? && out.auth.authorized {
      var s, event := seen.session.value, w.events[ask.eventId];
      StartEffect(db, s, ask.eventId, event, ask.outboxId, ask.now);
      GoKeeps(cfg, db, s, ask.eventId, event, ask.outboxId, ask.now);
    } else {
      QuietKeeps(cfg, db, w);
    }
  }

  lemma CancelAdvances(cfg: Config, s: Session, taskRead: Option<TaskRow>)
    requires SessionShape(cfg, s) && s.state !in TERMINAL
    requires taskRead.Some? ==> taskRead.value.riskLevel == None
    ensures CancelWrites(s.task, Some(s), taskRead).Some?
      && Advances(cfg, s, CancelWrites(s.task, Some(s), taskRead).value)
  {
  }

  lemma CancelCommit(cfg: Config, db: Db, task: string, sessionRead: Option<Session>, taskRead: Option<TaskRow>,
          w: Writes)
    requires cfg.versions && Inv(cfg, db) && CancelWrites(task, sessionRead, taskRead) == Some(w) && Fits(cfg, db, w)
    requires taskRead.Some? ==> taskRead.value.riskLevel == None
    requires sessionRead.Some? ==>
      sessionRead.value.task == task && sessionRead.value.state !in TERMINAL && Current(db, sessionRead.value, w)
    ensures Inv(cfg, Apply(db, w)) && Grows(db, Apply(db, w))
  {
    assert sessionRead.Some? ==> SessionShape(cfg, sessionRead.value);
    hide Inv, ForeignKeys, OneActiveSession, OneActiveAnswer, OneAuthorizedGo;
    hide Apply, Grows, Fits, SessionShape, Advances;
    if sessionRead.Some? {
      CancelAdvances(cfg, sessionRead.value, taskRead);
      AdvancesKeeps(cfg, db, sessionRead.value, w);
    } else {
      QuietKeeps(cfg, db, w);
    }
  }

  /** The writes of a first intake. */
  ghost predicate Begins(cfg: Config, w: Writes) {
    && w.session.Added? && SessionShape(cfg, w.session.row) && w.session.row.state != Approved
    && w.session.row.roundsCount == (if w.round.None? then 0 else 1)
    && (w.round.Some? ==> w.round.value == RoundId(w.session.row.id, 1))
    && w.answers == map[] && w.superseded == {}
    && w.events == map[] && w.outbox == map[] && w.sent == {}
    && TaskWriteOk(w)
  }

  lemma NewSessionKeeps(cfg: Config, db: Db, db': Db, s: Session)
    requires SessionsInv(cfg, db) && RoundsInv(db) && AnswersInv(db) && ForeignKeys(db)
    requires s.id !in db.sessions && db'.sessions == db.sessions[s.id := s]
    requires SessionShape(cfg, s) && s.state != Approved && s.roundsCount <= 1
    requires db'.rounds == db.rounds + (if s.roundsCount == 0 then {} else {RoundId(s.id, 1)})
    requires db'.answers == db.answers
    ensures SessionsInv(cfg, db') && RoundsInv(db') && AnswersInv(db') && SameApproved(db, db')
  {
    AnswersHaveRounds(db);
    forall a | a in db'.answers
      ensures !IsActive(db', a.question.round)
    {
      assert !IsActive(db, a.question.round) && a.question.round.session in db.sessions;
    }
  }

  lemma BeginsKeeps(cfg: Config, db: Db, w: Writes)
    requires cfg.versions && Inv(cfg, db) && Fits(cfg, db, w) && Begins(cfg, w)
    ensures Inv(cfg, Apply(db, w)) && Grows(db, Apply(db, w))
  {
    hide ForeignKeys, SessionsInv, RoundsInv, AnswersInv, EventsInv, OutboxInv, TasksInv, SessionShape;
    hide OneActiveSession, OneActiveAnswer, OneAuthorizedGo, SameApproved;
    var db' := Apply(db, w);
    NothingSuperseded(db.answers);
    NothingSent(db.outbox);
    NewSessionKeeps(cfg, db, db', w.session.row);
    NoStartKeeps(db, db');
    TasksKeep(cfg, db, w);
  }

  lemma IntakeCommit(cfg: Config, db: Db, task: string, form: Form, now: nat, taskRead: Option<TaskRow>,
          sessionRead: Option<Session>)
    requires cfg.versions && Inv(cfg, db) && Fits(cfg, db, IntakeWrites(task, form, now, taskRead, sessionRead))
    requires taskRead.Some? ==> taskRead.value.riskLevel == None
    requires sessionRead.Some? ==> SessionShape(cfg, sessionRead.value)
    ensures
      var db' := Apply(db, IntakeWrites(task, form, now, taskRead, sessionRead));
      Inv(cfg, db') && Grows(db, db')
  {
    var w := IntakeWrites(task, form, now, taskRead, sessionRead);
    hide Inv, Fits, Apply, Grows, Gaps;
    if sessionRead.Some? {
      assert sessionRead.value.state != New;
      QuietKeeps(cfg, db, w);
    } else {
      BeginsKeeps(cfg, db, w);
    }
  }

  // ---- Answers ----

  lemma {:induction false} GoodFromRound(replies: seq<Reply>, byOrdinal: map<nat, QuestionId>, threshold: real)
    ensures forall g :: g in GoodReplies(replies, byOrdinal, threshold) ==> g.question in byOrdinal.Values
  {
    if replies != [] {
      GoodFromRound(replies[..|replies| - 1], byOrdinal, threshold);
    }
  }

  /** Nothing the transaction answers had an active answer, and its replies are to one round. */
  ghost predicate FirstTime(s: Session, good: seq<Good>, active: map<QuestionId, (AnswerId, Answer)>) {
    forall i :: 0 <= i < |good| ==> good[i].question !in active && s.activeRound == Some(good[i].question.round)
  }

  lemma NewAnswersAreFirst(s: Session, comment: string, good: seq<Good>, active: map<QuestionId, (AnswerId, Answer)>)
    requires DistinctQuestions(good) && FirstTime(s, good, active)
    ensures FirstAnswers(s, NewAnswers(comment, good, active)) && Replaced(good, active) == {}
  {
    NewAnswersMean(comment, good, active);
  }

  lemma FinalizedAdvances(cfg: Config, ask: AnswerAsk, seen: AnswerReads, w: Writes)
    requires seen.session.Some? && seen.session.value.state == WaitingAnswers && SessionShape(cfg, seen.session.value)
    requires seen.task.Some? && seen.task.value.riskLevel == None
    requires FirstAnswers(seen.session.value, w.answers)
    requires w == Nothing(w.taskId).(answers := w.answers)
    ensures
      var s := seen.session.value;
      var out := Finalized(cfg, ask, seen, Moved(Moved(s, AnswersReceived), CompletenessCheck), w);
      out.Some? ==> Advances(cfg, s, out.value)
  {
    hide FirstAnswers, Gaps, Merged, QuestionsFor;
  }

  lemma AnswerAdvances(cfg: Config, task: string, ask: AnswerAsk, seen: AnswerReads, w: Writes)
    requires AnswerWrites(cfg, task, ask, seen) == Some(w) && w.session.Changed?
    requires SessionShape(cfg, seen.session.value) && seen.task.Some? && seen.task.value.riskLevel == None
    requires FirstTime(seen.session.value, GoodReplies(ask.replies, seen.byOrdinal, ask.threshold), seen.active)
    ensures Advances(cfg, seen.session.value, w)
  {
    var good := GoodReplies(ask.replies, seen.byOrdinal, ask.threshold);
    var begun := Nothing(task).(
      answers := NewAnswers(ask.comment, good, seen.active), superseded := Replaced(good, seen.active));
    hide SessionShape, FirstAnswers, Finalized, Advances, GoodReplies, NewAnswers, Replaced, FirstTime;
    NewAnswersAreFirst(seen.session.value, ask.comment, good, seen.active);
    FinalizedAdvances(cfg, ask, seen, begun);
  }

  lemma AnswerQuiet(cfg: Config, task: string, ask: AnswerAsk, seen: AnswerReads, w: Writes)
    requires AnswerWrites(cfg, task, ask, seen) == Some(w) && !w.session.Changed?
    ensures Quiet(w)
  {
    hide Gaps, Merged, QuestionsFor, NewAnswers, Replaced, GoodReplies;
  }

  lemma AnswerCommit(cfg: Config, db: Db, task: string, ask: AnswerAsk, seen: AnswerReads, w: Writes)
    requires cfg.versions && Inv(cfg, db) && AnswerWrites(cfg, task, ask, seen) == Some(w) && Fits(cfg, db, w)
    requires seen.task.Some? ==> seen.task.value.riskLevel == None
    requires w.session.Changed? ==>
      && Listening(ask, seen) && Current(db, seen.session.value, w) && seen.task.Some?
      && FirstTime(seen.session.value, GoodReplies(ask.replies, seen.byOrdinal, ask.threshold), seen.active)
    ensures Inv(cfg, Apply(db, w)) && Grows(db, Apply(db, w))
  {
    hide Inv, Fits, Apply, Grows, AnswerWrites, SessionShape, FirstTime, GoodReplies, Advances, Quiet;
    if w.session.Changed? {
      SessionHasShape(cfg, db, seen.session.value.id);
      AnswerAdvances(cfg, task, ask, seen, w);
      AdvancesKeeps(cfg, db, seen.session.value, w);
    } else {
      AnswerQuiet(cfg, task, ask, seen, w);
      QuietKeeps(cfg, db, w);
    }
  }

  // ---- Every step of a run keeps the invariant ----

  lemma SessionHasShape(cfg: Config, db: Db, id: SessionId)
    requires Inv(cfg, db) && id in db.sessions
    ensures SessionShape(cfg, db.sessions[id]) && db.sessions[id].id == id
  {
  }

  /** A question of the round the session is waiting on has no answer, nor had it earlier. */
  lemma ActiveUnanswered(cfg: Config, history: seq<Db>, m: nat, q: QuestionId,
                         active: map<QuestionId, (AnswerId, Answer)>)
    requires GoodHistory(cfg, history) && m < |history|
    requires IsActive(Last(history), q.round) && ReadsActiveAnswer(history[m], q, active)
    ensures q !in active
  {
    GrowsToLast(cfg, history, m);
    hide GoodHistory, ForeignKeys, SessionsInv, RoundsInv, EventsInv, OutboxInv, TasksInv;
  }

  /** Every reply accepted is to a question of the round, each looked up at some moment. */
  lemma RepliesLookedUp(history: seq<Db>, t: Txn, i: nat)
    requires t.Answers? && Legal(history, t) && t.seen.round.Some? && i < |GoodOf(t)|
    ensures GoodOf(t)[i].question.round == t.seen.round.value
    ensures 3 + i < |t.at| && t.at[3 + i] < |history|
      && ReadsActiveAnswer(history[t.at[3 + i]], GoodOf(t)[i].question, t.seen.active)
  {
    hide GoodReplies, ListsAccepted, ReadsActiveAnswer, ReadsActive;
    GoodFromRound(t.ask.replies, t.seen.byOrdinal, t.ask.threshold);
    assert GoodOf(t)[i].question in ByOrdinal(history[t.at[2]], t.seen.round.value).Values;
  }

  lemma AnsweredTaskExists(cfg: Config, history: seq<Db>, t: Txn)
    requires GoodHistory(cfg, history) && t.Answers? && Legal(history, t) && t.seen.session.Some?
    ensures t.seen.task.Some?
  {
    hide GoodHistory, GoodReplies, ListsAccepted, ReadsActiveAnswer;
    TaskOutlives(cfg, history, t.at[0], t.at[3 + |GoodOf(t)|], t.seen.session.value);
  }

  /** The round being answered is still waiting at commit, so its questions were unanswered when the
      transaction looked. */
  lemma AnswersAreFirst(cfg: Config, history: seq<Db>, t: Txn)
    requires GoodHistory(cfg, history) && t.Answers? && Legal(history, t) && Listening(t.ask, t.seen)
    requires IsActive(Last(history), t.seen.round.value)
    ensures FirstTime(t.seen.session.value, GoodOf(t), t.seen.active)
  {
    hide GoodHistory, Legal, ReadsActiveAnswer, IsActive;
    forall i | 0 <= i < |GoodOf(t)|
      ensures GoodOf(t)[i].question !in t.seen.active && GoodOf(t)[i].question.round == t.seen.round.value
    {
      RepliesLookedUp(history, t, i);
      ActiveUnanswered(cfg, history, t.at[3 + i], GoodOf(t)[i].question, t.seen.active);
    }
  }

  lemma GrowsToLast(cfg: Config, history: seq<Db>, m: nat)
    requires GoodHistory(cfg, history) && m < |history|
    ensures Grows(history[m], Last(history)) && Inv(cfg, Last(history))
  {
  }

  lemma TaskOutlives(cfg: Config, history: seq<Db>, m: nat, n: nat, s: Session)
    requires GoodHistory(cfg, history) && m <= n < |history|
    requires s.id in history[m].sessions && history[m].sessions[s.id] == s
    ensures s.task in history[n].tasks
  {
    assert ForeignKeys(history[m]) && Grows(history[m], history[n]);
  }

  /** The transaction committed with these writes. */
  ghost predicate Committing(cfg: Config, history: seq<Db>, t: Txn, w: Writes) {
    && GoodHistory(cfg, history) && Legal(history, t)
    && WritesOf(cfg, t) == Some(w) && Fits(cfg, Last(history), w)
  }

  lemma IntakeStep(cfg: Config, history: seq<Db>, t: Txn, w: Writes)
    requires cfg.versions && Committing(cfg, history, t, w) && t.Intake?
    ensures Inv(cfg, Apply(Last(history), w)) && Grows(Last(history), Apply(Last(history), w))
  {
    hide Inv, Fits, Apply, Grows, IntakeWrites;
    NoRiskRead(cfg, history, t.at[0], t.task);
    if t.sessionRead.Some? {
      SessionHasShape(cfg, history[t.at[1]], t.sessionRead.value.id);
    }
    IntakeCommit(cfg, Last(history), t.task, t.form, t.now, t.taskRead, t.sessionRead);
  }

  lemma AnswerStep(cfg: Config, history: seq<Db>, t: Txn, w: Writes)
    requires cfg.versions && Committing(cfg, history, t, w) && t.Answers?
    ensures Inv(cfg, Apply(Last(history), w)) && Grows(Last(history), Apply(Last(history), w))
  {
    NoRiskRead(cfg, history, t.at[3 + |GoodOf(t)|], t.task);
    if w.session.Changed? {
      AnswerReplaces(cfg, t.task, t.ask, t.seen, w);
      ReadAtCommit(cfg, history, t.at[0], t.seen.session.value, w);
      AnsweredTaskExists(cfg, history, t);
      AnswersAreFirst(cfg, history, t);
    }
    AnswerCommit(cfg, Last(history), t.task, t.ask, t.seen, w);
  }

  lemma AnswerReplaces(cfg: Config, task: string, ask: AnswerAsk, seen: AnswerReads, w: Writes)
    requires AnswerWrites(cfg, task, ask, seen) == Some(w) && w.session.Changed?
    ensures Listening(ask, seen)
    ensures w.session.row.id == seen.session.value.id && w.session.read == seen.session.value.version
  {
    hide Gaps, Merged, QuestionsFor, NewAnswers, Replaced;
  }

  lemma GoStep(cfg: Config, history: seq<Db>, t: Txn, w: Writes)
    requires cfg.versions && Committing(cfg, history, t, w) && t.Go?
    ensures Inv(cfg, Apply(Last(history), w)) && Grows(Last(history), Apply(Last(history), w))
  {
    hide Inv, Apply, Grows, Matched, FirstOf, HasAuthorized;
    NoRiskRead(cfg, history, t.at[3], t.task);
    if w.session.Changed? {
      ReadAtCommit(cfg, history, t.at[0], t.goSeen.session.value, w);
    }
    GoCommit(cfg, Last(history), t.task, t.goAsk, t.goSeen);
  }

  lemma CancelStep(cfg: Config, history: seq<Db>, t: Txn, w: Writes)
    requires cfg.versions && Committing(cfg, history, t, w) && t.Cancel?
    ensures Inv(cfg, Apply(Last(history), w)) && Grows(Last(history), Apply(Last(history), w))
  {
    hide Inv, Apply, Grows;
    NoRiskRead(cfg, history, t.at[1], t.task);
    if t.sessionRead.Some? {
      ReadAtCommit(cfg, history, t.at[0], t.sessionRead.value, w);
    }
    CancelCommit(cfg, Last(history), t.task, t.sessionRead, t.taskRead, w);
  }

  lemma ProgressStep(cfg: Config, history: seq<Db>, t: Txn, w: Writes)
    requires cfg.versions && Committing(cfg, history, t, w) && t.Progress?
    ensures Inv(cfg, Apply(Last(history), w)) && Grows(Last(history), Apply(Last(history), w))
  {
    hide Inv, Fits, Apply, Grows;
    NoRiskRead(cfg, history, t.at[0], t.task);
    QuietKeeps(cfg, Last(history), w);
  }

  lemma RelayStep(cfg: Config, history: seq<Db>, t: Txn, w: Writes)
    requires cfg.versions && Committing(cfg, history, t, w) && t.Relay?
    ensures Inv(cfg, Apply(Last(history), w)) && Grows(Last(history), Apply(Last(history), w))
  {
    hide Inv, Fits, Apply, Grows;
    QuietKeeps(cfg, Last(history), w);
  }

  lemma StepKeeps(cfg: Config, history: seq<Db>, t: Txn, next: Db)
    requires cfg.versions && GoodHistory(cfg, history) && Step(cfg, history, t, next)
    ensures Inv(cfg, next) && Grows(Last(history), next)
  {
    if next == Last(history) {
      GrowsToLast(cfg, history, |history| - 1);
    } else {
      var w := WritesOf(cfg, t).value;
      assert Committing(cfg, history, t, w);
      hide Inv, Grows, Step, Legal, WritesOf, Apply, Fits, Committing, GoodHistory;
      match t {
        case Intake(_, _, _, _, _, _) => IntakeStep(cfg, history, t, w);
        case Answers(_, _, _, _, _) => AnswerStep(cfg, history, t, w);
        case Go(_, _, _, _) => GoStep(cfg, history, t, w);
        case Cancel(_, _, _, _) => CancelStep(cfg, history, t, w);
        case Progress(_, _, _, _) => ProgressStep(cfg, history, t, w);
        case Relay(_, _, _) => RelayStep(cfg, history, t, w);
      }
    }
  }

  lemma RunPrefix(cfg: Config, history: seq<Db>, log: seq<Txn>, n: nat)
    requires Run(cfg, history, log) && n <= |log|
    ensures Run(cfg, history[..n + 1], log[..n])
  {
    hide Step;
    forall i | 0 <= i < n
      ensures Step(cfg, history[..n + 1][..i + 1], log[..n][i], history[..n + 1][i + 1])
    {
      assert history[..n + 1][..i + 1] == history[..i + 1];
    }
  }

  lemma EmptyIsGood(cfg: Config)
    ensures Inv(cfg, EMPTY_DB) && Grows(EMPTY_DB, EMPTY_DB)
  {
  }

  /** Every state of every run, in any interleaving, satisfies the invariant, and what is committed is
      never lost. */
  lemma {:induction false} RunIsGood(cfg: Config, history: seq<Db>, log: seq<Txn>)
    requires cfg.versions && Run(cfg, history, log)
    ensures GoodHistory(cfg, history)
  {
    hide Step, Inv, Grows;
    if log == [] {
      EmptyIsGood(cfg);
    } else {
      var n := |log| - 1;
      RunPrefix(cfg, history, log, n);
      RunIsGood(cfg, history[..n + 1], log[..n]);
      assert Step(cfg, history[..n + 1], log[n], history[n + 1]);
      StepKeeps(cfg, history[..n + 1], log[n], history[n + 1]);
      Extends(cfg, history[..n + 1], history[n + 1]);
      assert history == history[..n + 1] + [history[n + 1]];
    }
  }

  lemma Extends(cfg: Config, history: seq<Db>, next: Db)
    requires GoodHistory(cfg, history) && Inv(cfg, next) && Grows(Last(history), next)
    ensures GoodHistory(cfg, history + [next])
  {
    forall i | 0 <= i < |history|
      ensures Grows(history[i], next)
    {
      GrowsToLast(cfg, history, i);
      GrowsChains(history[i], Last(history), next);
    }
    assert Grows(next, next);
    hide Inv, Grows;
  }
}
