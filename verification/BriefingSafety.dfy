/** What the invariant means for whoever uses the service: over every run, however transactions
    interleave and wherever they are cut off, a task starts at most once, a briefing is bounded, rounds
    and answers are what the protocol says they are. */
module BriefingSafety {
  import opened Wrappers
  import opened Contracts
  import opened BriefingFsm
  import opened Ids
  import opened GoAuthorizer
  import opened BriefingSchema
  import opened Briefing
  import opened BriefingRuns
  import opened BriefingInvariant

  // ---- Single start ----

  ghost function AuthorizedOf(db: Db, task: string): set<string> {
    AuthorizedIn(db.events, task)
  }

  ghost function AuthorizedIn(events: map<string, GoEvent>, task: string): set<string> {
    set e | e in events && events[e].authorized && events[e].task == task
  }

  ghost function PlansOf(db: Db, task: string): set<nat> {
    PlansIn(db.outbox, task)
  }

  ghost function PlansIn(outbox: map<nat, OutboxRow>, task: string): set<nat> {
    set i | i in outbox && outbox[i].job == RunTaskPhase(task, "plan")
  }

  lemma AtMostOne<T>(s: set<T>)
    requires forall x, y :: x in s && y in s ==> x == y
    ensures |s| <= 1 && (|s| == 1 <==> exists x :: x in s)
  {
    if x :| x in s {
      assert s == {x};
    }
  }

  /** In every state of every run a task has as many plan intentions as authorised /go events, at most
      one of each, and exactly one when its session is approved. */
  lemma SingleStart(cfg: Config, history: seq<Db>, log: seq<Txn>, i: nat, task: string)
    requires cfg.versions && Run(cfg, history, log) && i < |history|
    ensures |PlansOf(history[i], task)| == |AuthorizedOf(history[i], task)| <= 1
    ensures IsApproved(history[i], SessionId(task)) <==> |AuthorizedOf(history[i], task)| == 1
  {
    RunIsGood(cfg, history, log);
    assert Inv(cfg, history[i]);
    StartsMatch(history[i], task);
  }

  lemma StartsMatch(db: Db, task: string)
    requires EventsInv(db) && OutboxInv(db)
    ensures |PlansOf(db, task)| == |AuthorizedOf(db, task)| <= 1
    ensures IsApproved(db, SessionId(task)) <==> |AuthorizedOf(db, task)| == 1
  {
    var s := SessionId(task);
    AtMostOne(PlansOf(db, task));
    AtMostOne(AuthorizedOf(db, task));
    if IsApproved(db, s) {
      assert HasAuthorized(db, s) && HasPlan(db, s.task);
      var e :| e in db.events && db.events[e].authorized && db.events[e].session == s;
      assert e in AuthorizedOf(db, task);
      var i :| i in db.outbox && db.outbox[i].job.task == task;
      assert i in PlansOf(db, task);
    }
  }

  /** One start for ever: once a task was started, the same event and the same intention are its only
      ones in every later state. */
  lemma StartedForEver(cfg: Config, history: seq<Db>, log: seq<Txn>, i: nat, j: nat, task: string)
    requires cfg.versions && Run(cfg, history, log) && i <= j < |history|
    requires AuthorizedOf(history[i], task) != {}
    ensures AuthorizedOf(history[j], task) == AuthorizedOf(history[i], task)
    ensures PlansOf(history[j], task) == PlansOf(history[i], task)
  {
    RunIsGood(cfg, history, log);
    assert Grows(history[i], history[j]);
    SingleStart(cfg, history, log, i, task);
    SingleStart(cfg, history, log, j, task);
    hide Inv;
    assert forall r :: r in history[i].outbox ==> OutboxGrows(history[i].outbox[r], history[j].outbox[r]);
    SameWhenSingle(AuthorizedOf(history[i], task), AuthorizedOf(history[j], task));
    SameWhenSingle(PlansOf(history[i], task), PlansOf(history[j], task));
  }

  lemma SameWhenSingle<T>(s: set<T>, t: set<T>)
    requires s <= t && |t| <= 1 && |s| >= 1
    ensures s == t
  {
    var x :| x in s;
    assert |t - {x}| == |t| - 1;
  }

  /** A task has one session for ever, because its key is a function of the task. */
  lemma OneSessionForEver(cfg: Config, history: seq<Db>, log: seq<Txn>, i: nat, j: nat, a: SessionId, b: SessionId)
    requires cfg.versions && Run(cfg, history, log) && i < |history| && j < |history|
    requires a in history[i].sessions && b in history[j].sessions
      && history[i].sessions[a].task == history[j].sessions[b].task
    ensures a == b
  {
    RunIsGood(cfg, history, log);
    assert SessionShape(cfg, history[i].sessions[a]) && SessionShape(cfg, history[j].sessions[b]);
  }

  /** A session that is closed stays exactly as it is; if it was not approved, its task never starts. */
  lemma ClosedForEver(cfg: Config, history: seq<Db>, log: seq<Txn>, i: nat, j: nat, task: string)
    requires cfg.versions && Run(cfg, history, log) && i <= j < |history|
    requires SessionId(task) in history[i].sessions && history[i].sessions[SessionId(task)].state in TERMINAL
    ensures SessionId(task) in history[j].sessions
    ensures history[j].sessions[SessionId(task)] == history[i].sessions[SessionId(task)]
    ensures history[i].sessions[SessionId(task)].state != Approved ==>
      AuthorizedOf(history[j], task) == {} && PlansOf(history[j], task) == {}
  {
    RunIsGood(cfg, history, log);
    assert Grows(history[i], history[j]);
    hide Inv;
    assert SessionGrows(history[i].sessions[SessionId(task)], history[j].sessions[SessionId(task)]);
    SingleStart(cfg, history, log, j, task);
    EmptyWhenNone(AuthorizedOf(history[j], task));
    EmptyWhenNone(PlansOf(history[j], task));
  }

  lemma EmptyWhenNone<T>(s: set<T>)
    ensures |s| == 0 ==> s == {}
  {
  }

  // ---- Either guard is enough, and one is needed ----

  lemma CommitKeepsIndex(cfg: Config, db: Db, w: Option<Writes>)
    requires cfg.goIndex && OneAuthorizedGo(db)
    ensures OneAuthorizedGo(Commit(cfg, db, w))
  {
    hide OneAuthorizedGo, Apply, TaskFits, SessionFits, KeysFit, ForeignKeys, OneActiveSession, OneActiveAnswer;
  }

  lemma RunStarts(cfg: Config, history: seq<Db>, log: seq<Txn>)
    requires Run(cfg, history, log)
    ensures |history| == |log| + 1 && history[0] == EMPTY_DB && OneAuthorizedGo(EMPTY_DB)
  {
    hide Step;
  }

  lemma StepIsCommit(cfg: Config, history: seq<Db>, log: seq<Txn>, i: nat)
    requires Run(cfg, history, log) && i < |log|
    ensures history[i + 1] == history[i] || history[i + 1] == Commit(cfg, history[i], WritesOf(cfg, log[i]))
  {
    hide Legal, Commit, WritesOf;
    assert Step(cfg, history[..i + 1], log[i], history[i + 1]);
    assert Last(history[..i + 1]) == history[i];
  }

  /** With the unique index alone, no version checks, a session still has at most one authorised event. */
  lemma {:induction false} IndexAlone(cfg: Config, history: seq<Db>, log: seq<Txn>, i: nat)
    requires cfg.goIndex && Run(cfg, history, log) && i < |history|
    ensures OneAuthorizedGo(history[i])
  {
    hide *;
    RunStarts(cfg, history, log);
    if i > 0 {
      IndexAlone(cfg, history, log, i - 1);
      StepIsCommit(cfg, history, log, i - 1);
      CommitKeepsIndex(cfg, history[i - 1], WritesOf(cfg, log[i - 1]));
    }
  }

  // Names and pairs hold whatever the guards.

  /** Sessions and events carry the key of their task. */
  ghost predicate Named(db: Db) {
    && (forall s :: s in db.sessions ==> db.sessions[s].id == s == SessionId(db.sessions[s].task))
    && (forall e :: e in db.events ==> db.events[e].session == SessionId(db.events[e].task))
  }

  /** The session a transaction read. */
  function SessionReadBy(t: Txn): Option<Session> {
    match t
    case Intake(_, _, _, _, _, sessionRead) => sessionRead
    case Answers(_, _, _, seen, _) => seen.session
    case Go(_, _, _, seen) => seen.session
    case Cancel(_, _, _, sessionRead) => sessionRead
    case _ => None
  }

  /** One plan intention and one authorised event of the same task, or neither. */
  ghost predicate Paired(task: string, w: Writes) {
    || (w.outbox == map[] && forall e :: e in w.events ==> !w.events[e].authorized)
    || exists e: string, o: nat, now: nat, event: GoEvent :: IsStart(task, w, e, event, o, now)
  }

  ghost predicate IsStart(task: string, w: Writes, e: string, event: GoEvent, o: nat, now: nat) {
    && w.outbox == map[o := OutboxRow(RunTaskPhase(task, "plan"), now, false)]
    && w.events == map[e := event] && event.authorized && event.task == task
  }

  lemma SessionWritten(cfg: Config, t: Txn, w: Writes)
    requires WritesOf(cfg, t) == Some(w)
    requires SessionReadBy(t).Some? ==>
      SessionReadBy(t).value.task == t.task && SessionReadBy(t).value.id == SessionId(t.task)
    ensures !w.session.Unchanged? ==> w.session.row.id == SessionId(w.session.row.task) && w.session.row.task == t.task
  {
    hide Gaps, Merged, QuestionsFor, NewAnswers, Replaced, GoodReplies, Matched, FirstOf;
    hide Complete, Holds, Blank, TaskWrite;
  }

  lemma EventsWritten(cfg: Config, t: Txn, w: Writes)
    requires WritesOf(cfg, t) == Some(w)
    requires t.Go? && t.goSeen.session.Some? ==> t.goSeen.session.value.id == SessionId(t.task)
    ensures forall e :: e in w.events ==> w.events[e].session == SessionId(w.events[e].task)
    ensures Paired(t.task, w)
  {
    hide Gaps, Merged, QuestionsFor, NewAnswers, Replaced, GoodReplies, Matched, FirstOf;
    hide Complete, Holds, Blank, TaskWrite, Moved, RoundOpened, ApprovedFrom;
    if t.Go? && GoOutcome(t.goAsk, t.goSeen).Decided? && GoOutcome(t.goAsk, t.goSeen).auth.authorized {
      assert IsStart(t.task, w, t.goAsk.eventId, w.events[t.goAsk.eventId], t.goAsk.outboxId, t.goAsk.now);
    }
  }

  lemma WritesAreNamed(cfg: Config, t: Txn, w: Writes)
    requires WritesOf(cfg, t) == Some(w)
    requires SessionReadBy(t).Some? ==>
      SessionReadBy(t).value.task == t.task && SessionReadBy(t).value.id == SessionId(t.task)
    ensures !w.session.Unchanged? ==> w.session.row.id == SessionId(w.session.row.task) && w.session.row.task == t.task
    ensures forall e :: e in w.events ==> w.events[e].session == SessionId(w.events[e].task)
    ensures Paired(t.task, w)
  {
    hide WritesOf, Paired;
    SessionWritten(cfg, t, w);
    EventsWritten(cfg, t, w);
  }

  lemma ReadIsNamed(history: seq<Db>, t: Txn)
    requires Legal(history, t) && forall i :: 0 <= i < |history| ==> Named(history[i])
    ensures SessionReadBy(t).Some? ==>
      SessionReadBy(t).value.task == t.task && SessionReadBy(t).value.id == SessionId(t.task)
  {
    hide Named;
    if SessionReadBy(t).Some? {
      var m := if t.Intake? then t.at[1] else t.at[0];
      NamedSession(history[m], SessionReadBy(t).value.id);
    }
  }

  lemma NamedSession(db: Db, id: SessionId)
    requires Named(db) && id in db.sessions
    ensures db.sessions[id].id == id == SessionId(db.sessions[id].task)
  {
  }

  lemma NamedCommit(cfg: Config, db: Db, w: Writes)
    requires Named(db) && (!w.session.Unchanged? ==> w.session.row.id == SessionId(w.session.row.task))
    requires forall e :: e in w.events ==> w.events[e].session == SessionId(w.events[e].task)
    ensures Named(Apply(db, w))
  {
  }

  lemma {:induction false} RunIsNamed(cfg: Config, history: seq<Db>, log: seq<Txn>, n: nat)
    requires Run(cfg, history, log) && n < |history|
    ensures forall i :: 0 <= i <= n ==> Named(history[i])
  {
    hide *;
    RunStarts(cfg, history, log);
    if n == 0 {
      EmptyIsNamed();
    } else {
      RunIsNamed(cfg, history, log, n - 1);
      StepIsPaired(cfg, history, log, n - 1);
    }
  }

  lemma EmptyIsNamed()
    ensures Named(EMPTY_DB)
  {
  }

  /** What a step of a run writes is named and paired. */
  lemma StepIsPaired(cfg: Config, history: seq<Db>, log: seq<Txn>, i: nat)
    requires Run(cfg, history, log) && i < |log| && forall k :: 0 <= k <= i ==> Named(history[k])
    ensures Named(history[i + 1])
    ensures history[i + 1] != history[i] ==>
      && WritesOf(cfg, log[i]).Some? && Fits(cfg, history[i], WritesOf(cfg, log[i]).value)
      && history[i + 1] == Apply(history[i], WritesOf(cfg, log[i]).value)
      && Paired(log[i].task, WritesOf(cfg, log[i]).value)
  {
    assert Step(cfg, history[..i + 1], log[i], history[i + 1]) && Last(history[..i + 1]) == history[i];
    hide Run, Named, Legal, WritesOf, Fits, Apply, Paired;
    ReadIsNamed(history[..i + 1], log[i]);
    if history[i + 1] != history[i] {
      var w := WritesOf(cfg, log[i]).value;
      WritesAreNamed(cfg, log[i], w);
      NamedCommit(cfg, history[i], w);
    }
  }

  lemma PlansAfter(db: Db, w: Writes, task: string)
    requires w.outbox.Keys !! db.outbox.Keys
    ensures PlansOf(Apply(db, w), task) == PlansOf(db, task) + PlansIn(w.outbox, task)
    ensures PlansOf(db, task) !! PlansIn(w.outbox, task)
  {
  }

  lemma AuthorizedAfter(db: Db, w: Writes, task: string)
    requires w.events.Keys !! db.events.Keys
    ensures AuthorizedOf(Apply(db, w), task) == AuthorizedOf(db, task) + AuthorizedIn(w.events, task)
    ensures AuthorizedOf(db, task) !! AuthorizedIn(w.events, task)
  {
  }

  lemma PairedCounts(w: Writes, writer: string, task: string)
    requires Paired(writer, w)
    ensures |PlansIn(w.outbox, task)| == |AuthorizedIn(w.events, task)|
  {
    var plans, events := PlansIn(w.outbox, task), AuthorizedIn(w.events, task);
    if e: string, o: nat, now: nat, event: GoEvent :| IsStart(writer, w, e, event, o, now) {
      if writer == task {
        assert plans == {o} && events == {e};
      } else {
        assert plans == {} && events == {};
      }
    } else {
      assert plans == {} && events == {};
    }
  }

  lemma PairedCommit(cfg: Config, db: Db, w: Writes, writer: string, task: string)
    requires KeysFit(db, w) && Paired(writer, w)
    requires |PlansOf(db, task)| == |AuthorizedOf(db, task)|
    ensures |PlansOf(Apply(db, w), task)| == |AuthorizedOf(Apply(db, w), task)|
  {
    hide Apply, Paired, PlansOf, AuthorizedOf, PlansIn, AuthorizedIn;
    PlansAfter(db, w, task);
    AuthorizedAfter(db, w, task);
    PairedCounts(w, writer, task);
  }

  /** With or without guards, a task has as many plan intentions as authorised events. */
  lemma {:induction false} PlansAreAuthorized(cfg: Config, history: seq<Db>, log: seq<Txn>, i: nat, task: string)
    requires Run(cfg, history, log) && i < |history|
    ensures |PlansOf(history[i], task)| == |AuthorizedOf(history[i], task)|
  {
    hide *;
    RunStarts(cfg, history, log);
    if i == 0 {
      NoneYet(task);
    } else {
      PlansAreAuthorized(cfg, history, log, i - 1, task);
      RunIsNamed(cfg, history, log, i - 1);
      StepIsPaired(cfg, history, log, i - 1);
      if history[i] != history[i - 1] {
        var w := WritesOf(cfg, log[i - 1]).value;
        FitsKeys(cfg, history[i - 1], w);
        PairedCommit(cfg, history[i - 1], w, log[i - 1].task, task);
      }
    }
  }

  lemma NoneYet(task: string)
    ensures |PlansOf(EMPTY_DB, task)| == |AuthorizedOf(EMPTY_DB, task)|
  {
    assert PlansOf(EMPTY_DB, task) == {} && AuthorizedOf(EMPTY_DB, task) == {};
  }

  lemma FitsKeys(cfg: Config, db: Db, w: Writes)
    requires Fits(cfg, db, w)
    ensures KeysFit(db, w)
  {
  }

  /** So the unique index alone gives single start. */
  lemma IndexAloneStartsOnce(cfg: Config, history: seq<Db>, log: seq<Txn>, i: nat, task: string)
    requires cfg.goIndex && Run(cfg, history, log) && i < |history|
    ensures |PlansOf(history[i], task)| == |AuthorizedOf(history[i], task)| <= 1
  {
    hide Run;
    PlansAreAuthorized(cfg, history, log, i, task);
    IndexAlone(cfg, history, log, i);
    RunIsNamed(cfg, history, log, i);
    AtMostOne(AuthorizedOf(history[i], task));
  }

  lemma RunExtends(cfg: Config, history: seq<Db>, log: seq<Txn>, t: Txn, next: Db)
    requires Run(cfg, history, log) && Step(cfg, history, t, next)
    ensures Run(cfg, history + [next], log + [t])
  {
    hide Step;
    forall i | 0 <= i < |log + [t]|
      ensures Step(cfg, (history + [next])[..i + 1], (log + [t])[i], (history + [next])[i + 1])
    {
      assert (history + [next])[..i + 1] == history[..i + 1];
      assert i == |log| ==> history[..i + 1] == history;
    }
  }

  lemma ApplyNothing(db: Db, task: string)
    ensures Apply(db, Nothing(task)) == db
  {
    NothingSuperseded(db.answers);
    NothingSent(db.outbox);
    assert db.questions + map[] == db.questions && db.answers + map[] == db.answers;
    assert db.events + map[] == db.events && db.outbox + map[] == db.outbox;
  }

  // ---- A briefing is bounded ----

  /** Times the committed row of a session changed in the first `n` steps. */
  ghost function Changes(history: seq<Db>, n: nat, id: SessionId): nat
    requires n < |history|
  {
    if n == 0 then 0
    else
      var same := Lookup(history[n].sessions, id) == Lookup(history[n - 1].sessions, id);
      Changes(history, n - 1, id) + if same then 0 else 1
  }

  lemma HistoryMeans(cfg: Config, history: seq<Db>, i: nat, j: nat)
    requires GoodHistory(cfg, history) && i <= j < |history|
    ensures Inv(cfg, history[i]) && Inv(cfg, history[j]) && Grows(history[i], history[j])
  {
    hide Inv, Grows;
  }

  lemma MovesGrow(cfg: Config, history: seq<Db>, i: nat, j: nat, id: SessionId)
    requires GoodHistory(cfg, history) && i <= j < |history| && id in history[i].sessions
    ensures id in history[j].sessions && history[i].sessions[id].roundsCount <= history[j].sessions[id].roundsCount
    ensures 2 <= Moves(history[i].sessions[id]) <= Moves(history[j].sessions[id])
    ensures history[i].sessions[id] != history[j].sessions[id] ==>
      Moves(history[i].sessions[id]) < Moves(history[j].sessions[id])
  {
    HistoryMeans(cfg, history, i, j);
    hide GoodHistory, Inv;
    SessionHasShape(cfg, history[i], id);
    assert SessionGrows(history[i].sessions[id], history[j].sessions[id]);
  }

  /** Each change of the row is at least one transition, so the row changes at most that often. */
  lemma {:induction false} ChangesAreMoves(cfg: Config, history: seq<Db>, n: nat, id: SessionId)
    requires GoodHistory(cfg, history) && n < |history|
    ensures
      match Lookup(history[n].sessions, id)
      case None => Changes(history, n, id) == 0
      case Some(s) => Changes(history, n, id) <= Moves(s)
  {
    hide GoodHistory;
    if id in history[n].sessions {
      MovesGrow(cfg, history, n, n, id);
    }
    if n > 0 {
      ChangesAreMoves(cfg, history, n - 1, id);
      if id in history[n - 1].sessions {
        MovesGrow(cfg, history, n - 1, n, id);
      }
    }
  }

  /** However often the table could go round, a session makes at most 4k + 3 transitions, so its row
      changes at most that often, and opens at most k rounds, for k the configured number of rounds, at
      least one. */
  lemma BriefingIsBounded(cfg: Config, history: seq<Db>, log: seq<Txn>, i: nat, id: SessionId)
    requires cfg.versions && Run(cfg, history, log) && i < |history| && id in history[i].sessions
    ensures history[i].sessions[id].roundsCount <= MostRounds(cfg)
    ensures Changes(history, i, id) <= Moves(history[i].sessions[id]) <= 4 * MostRounds(cfg) + 3
  {
    RunIsGood(cfg, history, log);
    hide GoodHistory;
    HistoryMeans(cfg, history, i, i);
    SessionHasShape(cfg, history[i], id);
    ChangesAreMoves(cfg, history, i, id);
  }

  // ---- Sessions, rounds and answers ----

  /** What a committed session looks like, in every state of every run: one of five states, waiting on
      its newest round or on none, its rounds numbered without gaps from 1. */
  lemma SessionsKeepShape(cfg: Config, history: seq<Db>, log: seq<Txn>, i: nat, id: SessionId)
    requires cfg.versions && Run(cfg, history, log) && i < |history| && id in history[i].sessions
    ensures history[i].sessions[id].state in {WaitingAnswers, ReadyForGo, Approved, BlockedManual, Cancelled}
    ensures history[i].sessions[id].state == WaitingAnswers <==> history[i].sessions[id].activeRound.Some?
    ensures history[i].sessions[id].activeRound.Some? ==>
      && history[i].sessions[id].activeRound.value in history[i].rounds
      && history[i].sessions[id].activeRound.value == RoundId(id, history[i].sessions[id].roundsCount)
    ensures forall n: nat :: RoundId(id, n) in history[i].rounds <==> 1 <= n <= history[i].sessions[id].roundsCount
  {
    RunIsGood(cfg, history, log);
    hide GoodHistory, ForeignKeys, AnswersInv, EventsInv, OutboxInv, TasksInv;
    HistoryMeans(cfg, history, i, i);
    assert SessionShape(cfg, history[i].sessions[id]);
  }

  /** A round that has been left is never waited on again. */
  lemma RoundsAreNotReopened(cfg: Config, history: seq<Db>, log: seq<Txn>, i: nat, j: nat, k: nat, r: RoundId)
    requires cfg.versions && Run(cfg, history, log) && i <= j <= k < |history|
    requires IsActive(history[i], r) && !IsActive(history[j], r)
    ensures !IsActive(history[k], r)
  {
    RunIsGood(cfg, history, log);
    hide GoodHistory, Inv;
    MovesGrow(cfg, history, i, j, r.session);
    MovesGrow(cfg, history, j, k, r.session);
    ActiveMoves(cfg, history, i, r);
    if IsActive(history[k], r) {
      ActiveMoves(cfg, history, k, r);
    }
  }

  lemma ActiveMoves(cfg: Config, history: seq<Db>, i: nat, r: RoundId)
    requires GoodHistory(cfg, history) && i < |history| && IsActive(history[i], r)
    ensures Moves(history[i].sessions[r.session]) == 4 * r.number - 2
  {
    hide GoodHistory, Inv;
    HistoryMeans(cfg, history, i, i);
    SessionHasShape(cfg, history[i], r.session);
  }

  /** Answers are for ever, and a question gets at most one over the whole run. */
  lemma OneAnswerForEver(cfg: Config, history: seq<Db>, log: seq<Txn>, i: nat, j: nat, a: AnswerId, b: AnswerId)
    requires cfg.versions && Run(cfg, history, log) && i <= j < |history|
    requires a in history[i].answers && b in history[j].answers && a.question == b.question
    ensures a == b && history[j].answers[b] == history[i].answers[a]
    ensures history[i].answers[a].version == 1 && !history[i].answers[a].superseded
  {
    RunIsGood(cfg, history, log);
    hide GoodHistory, ForeignKeys, SessionsInv, RoundsInv, EventsInv, OutboxInv, TasksInv;
    HistoryMeans(cfg, history, i, j);
  }

  /** A question with an answer is not in a round that is being waited on, so each new answer is to a
      question that had none. */
  lemma AnswersCloseTheirRound(cfg: Config, history: seq<Db>, log: seq<Txn>, i: nat, a: AnswerId)
    requires cfg.versions && Run(cfg, history, log) && i < |history| && a in history[i].answers
    ensures a.question.round in history[i].rounds && !IsActive(history[i], a.question.round)
  {
    RunIsGood(cfg, history, log);
    hide GoodHistory, ForeignKeys, SessionsInv, RoundsInv, EventsInv, OutboxInv, TasksInv, IsActive;
    HistoryMeans(cfg, history, i, i);
    AnswersHaveRounds(history[i]);
  }

  // ---- What a committed step did ----

  /** Step `i` of the run either changed nothing or committed its transaction's writes. */
  lemma StepCommits(cfg: Config, history: seq<Db>, log: seq<Txn>, i: nat)
    requires cfg.versions && Run(cfg, history, log) && i < |log|
    ensures GoodHistory(cfg, history[..i + 1]) && Last(history[..i + 1]) == history[i]
    ensures history[i + 1] != history[i] ==>
      && WritesOf(cfg, log[i]).Some? && history[i + 1] == Apply(history[i], WritesOf(cfg, log[i]).value)
      && Committing(cfg, history[..i + 1], log[i], WritesOf(cfg, log[i]).value)
  {
    hide Inv, Grows, Legal, WritesOf, Fits, Apply, GoodHistory;
    RunIsGood(cfg, history, log);
    GoodPrefix(cfg, history, i + 1);
    assert Step(cfg, history[..i + 1], log[i], history[i + 1]);
  }

  lemma GoodPrefix(cfg: Config, history: seq<Db>, n: nat)
    requires GoodHistory(cfg, history) && 0 < n <= |history|
    ensures GoodHistory(cfg, history[..n])
  {
    hide Inv, Grows;
  }

  /** An answer row appears only by a transaction on answers, and it answers the round that was being
      waited on when it committed. */
  lemma AnswersGoToActiveRound(cfg: Config, history: seq<Db>, log: seq<Txn>, i: nat, a: AnswerId)
    requires cfg.versions && Run(cfg, history, log) && i < |log|
    requires a in history[i + 1].answers && a !in history[i].answers
    ensures log[i].Answers? && IsActive(history[i], a.question.round)
  {
    StepCommits(cfg, history, log, i);
    var before, t := history[..i + 1], log[i];
    var w := WritesOf(cfg, t).value;
    NewRowsWritten(history[i], w, a);
    WhoAnswers(cfg, t, w);
    NewAnswerIsActive(cfg, before, t, w, a);
  }

  lemma NewRowsWritten(db: Db, w: Writes, a: AnswerId)
    requires a in Apply(db, w).answers && a !in db.answers
    ensures a in w.answers
  {
  }

  lemma WhoAnswers(cfg: Config, t: Txn, w: Writes)
    requires WritesOf(cfg, t) == Some(w) && w.answers != map[]
    ensures t.Answers? && Listening(t.ask, t.seen) && DistinctQuestions(GoodOf(t))
    ensures w.answers == NewAnswers(t.ask.comment, GoodOf(t), t.seen.active)
    ensures w.session.Changed? && w.session.row.id == t.seen.session.value.id
      && w.session.read == t.seen.session.value.version
  {
    hide Gaps, Merged, QuestionsFor, NewAnswers, Replaced, GoodReplies, Matched, FirstOf;
  }

  lemma NewAnswerIsActive(cfg: Config, history: seq<Db>, t: Txn, w: Writes, a: AnswerId)
    requires cfg.versions && Committing(cfg, history, t, w) && a in w.answers
    requires t.Answers? && Listening(t.ask, t.seen) && DistinctQuestions(GoodOf(t))
    requires w.answers == NewAnswers(t.ask.comment, GoodOf(t), t.seen.active)
    requires w.session.Changed? && w.session.row.id == t.seen.session.value.id
      && w.session.read == t.seen.session.value.version
    ensures IsActive(Last(history), a.question.round)
  {
    ReadAtCommit(cfg, history, t.at[0], t.seen.session.value, w);
    NewAnswersMean(t.ask.comment, GoodOf(t), t.seen.active);
    var i :| 0 <= i < |GoodOf(t)| && GoodOf(t)[i].question == a.question;
    RepliesLookedUp(history, t, i);
  }

  // ---- A batch that answers a question twice ----

  predicate Accepts(r: Reply, byOrdinal: map<nat, QuestionId>, threshold: real) {
    r.ordinal in byOrdinal && r.confidence >= threshold
  }

  /** Reply `x` is accepted and gives this answer. */
  predicate Gives(replies: seq<Reply>, x: nat, g: Good, byOrdinal: map<nat, QuestionId>, threshold: real) {
    && x < |replies| && Accepts(replies[x], byOrdinal, threshold)
    && g == Good(byOrdinal[replies[x].ordinal], replies[x].text)
  }

  lemma {:induction false} GoodRepliesMean(replies: seq<Reply>, byOrdinal: map<nat, QuestionId>, threshold: real)
    ensures forall g :: g in GoodReplies(replies, byOrdinal, threshold) <==>
      exists x: nat :: Gives(replies, x, g, byOrdinal, threshold)
  {
    if replies != [] {
      var init := replies[..|replies| - 1];
      GoodRepliesMean(init, byOrdinal, threshold);
      forall g
        ensures g in GoodReplies(replies, byOrdinal, threshold) <==>
          exists x: nat :: Gives(replies, x, g, byOrdinal, threshold)
      {
        if g in GoodReplies(init, byOrdinal, threshold) {
          var x: nat :| Gives(init, x, g, byOrdinal, threshold);
          assert Gives(replies, x, g, byOrdinal, threshold);
        }
        if x: nat :| Gives(replies, x, g, byOrdinal, threshold) {
          assert x < |init| ==> Gives(init, x, g, byOrdinal, threshold);
        }
        if g in GoodReplies(replies, byOrdinal, threshold) && g !in GoodReplies(init, byOrdinal, threshold) {
          assert Gives(replies, |init|, g, byOrdinal, threshold);
        }
      }
    }
  }

  /** No ordinal is accepted twice. */
  ghost predicate OrdinalsDiffer(replies: seq<Reply>, byOrdinal: map<nat, QuestionId>, threshold: real) {
    forall x, y | 0 <= x < y < |replies| ::
      Accepts(replies[x], byOrdinal, threshold) && Accepts(replies[y], byOrdinal, threshold) ==>
        replies[x].ordinal != replies[y].ordinal
  }

  /** Two accepted replies answer the same question exactly when their ordinals repeat. */
  lemma {:induction false} RepeatsIff(replies: seq<Reply>, byOrdinal: map<nat, QuestionId>, threshold: real)
    requires forall o :: o in byOrdinal ==> byOrdinal[o].ordinal == o
    ensures DistinctQuestions(GoodReplies(replies, byOrdinal, threshold)) <==>
      OrdinalsDiffer(replies, byOrdinal, threshold)
  {
    if replies != [] {
      var init, last := replies[..|replies| - 1], Last(replies);
      var good := GoodReplies(init, byOrdinal, threshold);
      RepeatsIff(init, byOrdinal, threshold);
      LastRepeats(replies, byOrdinal, threshold);
      if Accepts(last, byOrdinal, threshold) {
        OneMoreQuestion(good, Good(byOrdinal[last.ordinal], last.text));
      } else {
        assert GoodReplies(replies, byOrdinal, threshold) == good;
      }
    }
  }

  lemma OneMoreQuestion(good: seq<Good>, g: Good)
    ensures DistinctQuestions(good + [g]) <==>
      DistinctQuestions(good) && forall h :: h in good ==> h.question != g.question
  {
    var more := good + [g];
    assert more[..|good|] == good && more[|good|] == g;
    if DistinctQuestions(more) {
      assert forall i, j :: 0 <= i < j < |good| ==> good[i] == more[i] && good[j] == more[j];
    }
  }

  lemma LastRepeats(replies: seq<Reply>, byOrdinal: map<nat, QuestionId>, threshold: real)
    requires forall o :: o in byOrdinal ==> byOrdinal[o].ordinal == o
    requires replies != []
    ensures
      var init := replies[..|replies| - 1];
      OrdinalsDiffer(replies, byOrdinal, threshold) <==>
        && OrdinalsDiffer(init, byOrdinal, threshold)
        && (Accepts(Last(replies), byOrdinal, threshold) ==>
          forall g :: g in GoodReplies(init, byOrdinal, threshold) ==> g.question != byOrdinal[Last(replies).ordinal])
  {
    var init, last := replies[..|replies| - 1], Last(replies);
    GoodRepliesMean(init, byOrdinal, threshold);
    assert replies == init + [last];
    forall x | 0 <= x < |init| && Accepts(init[x], byOrdinal, threshold)
      ensures Good(byOrdinal[init[x].ordinal], init[x].text) in GoodReplies(init, byOrdinal, threshold)
    {
      assert Gives(init, x, Good(byOrdinal[init[x].ordinal], init[x].text), byOrdinal, threshold);
    }
  }

  /** A batch with a repeated ordinal changes nothing at all. */
  lemma RepeatChangesNothing(cfg: Config, history: seq<Db>, log: seq<Txn>, i: nat, x: nat, y: nat)
    requires Run(cfg, history, log) && i < |log| && log[i].Answers? && Listening(log[i].ask, log[i].seen)
    requires x < y < |log[i].ask.replies| && log[i].ask.replies[x].ordinal == log[i].ask.replies[y].ordinal
    requires Accepts(log[i].ask.replies[x], log[i].seen.byOrdinal, log[i].ask.threshold)
    requires Accepts(log[i].ask.replies[y], log[i].seen.byOrdinal, log[i].ask.threshold)
    ensures history[i + 1] == history[i]
  {
    RoundQuestionsByOrdinal(cfg, history, log, i);
    RepeatRaises(cfg, log[i], x, y);
    StepIsCommit(cfg, history, log, i);
  }

  lemma RoundQuestionsByOrdinal(cfg: Config, history: seq<Db>, log: seq<Txn>, i: nat)
    requires Run(cfg, history, log) && i < |log| && log[i].Answers? && Listening(log[i].ask, log[i].seen)
    ensures forall o :: o in log[i].seen.byOrdinal ==> log[i].seen.byOrdinal[o].ordinal == o
  {
    hide Commit, WritesOf, ListsAccepted, GoodReplies, ReadsActive, ReadsActiveAnswer;
    assert Step(cfg, history[..i + 1], log[i], history[i + 1]);
    assert AnswersLegal(history[..i + 1], log[i]);
  }

  /** A repeated ordinal makes the transaction raise. */
  lemma RepeatRaises(cfg: Config, t: Txn, x: nat, y: nat)
    requires t.Answers? && Listening(t.ask, t.seen)
    requires forall o :: o in t.seen.byOrdinal ==> t.seen.byOrdinal[o].ordinal == o
    requires x < y < |t.ask.replies| && t.ask.replies[x].ordinal == t.ask.replies[y].ordinal
    requires Accepts(t.ask.replies[x], t.seen.byOrdinal, t.ask.threshold)
    requires Accepts(t.ask.replies[y], t.seen.byOrdinal, t.ask.threshold)
    ensures WritesOf(cfg, t) == None
  {
    hide GoodReplies, Finalized, NewAnswers, Replaced;
    RepeatsIff(t.ask.replies, t.seen.byOrdinal, t.ask.threshold);
    GoodRepliesMean(t.ask.replies, t.seen.byOrdinal, t.ask.threshold);
    var g := Good(t.seen.byOrdinal[t.ask.replies[x].ordinal], t.ask.replies[x].text);
    assert Gives(t.ask.replies, x, g, t.seen.byOrdinal, t.ask.threshold);
    assert g in GoodOf(t);
  }

  // ---- Complete cards ----

  /** The card whose gaps a transaction looked at. */
  function Evaluated(t: Txn): Option<Card> {
    match t
    case Intake(_, _, form, _, _, _) => Some(form.card)
    case Answers(_, _, _, seen, _) =>
      if seen.task.Some? then Some(Merged(seen.task.value.card, seen.accepted)) else None
    case _ => None
  }

  lemma ReadyWrites(cfg: Config, t: Txn, w: Writes)
    requires WritesOf(cfg, t) == Some(w)
    requires (w.session.Added? || w.session.Changed?) && w.session.row.state == ReadyForGo
    ensures Evaluated(t).Some? && Complete(Evaluated(t).value) && w.taskId == t.task
    ensures !w.task.Unchanged? ==> w.task.row.card == Evaluated(t).value
  {
    if Evaluated(t).Some? {
      GapsMean(Evaluated(t).value);
    }
    hide Gaps, Complete, Merged, QuestionsFor, NewAnswers, Replaced, GoodReplies, Matched, FirstOf;
  }

  lemma RowsWritten(db: Db, w: Writes, id: SessionId)
    requires Lookup(Apply(db, w).sessions, id) != Lookup(db.sessions, id)
    ensures (w.session.Added? || w.session.Changed?) && w.session.row.id == id
      && Lookup(Apply(db, w).sessions, id) == Some(w.session.row)
  {
  }

  lemma AddedByIntake(cfg: Config, t: Txn, w: Writes)
    requires WritesOf(cfg, t) == Some(w)
    requires t.Intake? && t.sessionRead.Some? ==> t.sessionRead.value.state != New
    ensures w.task.Added? ==> t.Intake? && t.taskRead.None? && w.taskId == t.task
    ensures w.task.Added? && t.sessionRead.None? ==> w.session.Added? && w.session.row.id == SessionId(t.task)
    ensures w.session.Added? ==> t.Intake? && w.session.row.id == SessionId(t.task)
    ensures t.Intake? ==> !w.session.Changed?
  {
    hide Gaps, Merged, QuestionsFor, NewAnswers, Replaced, GoodReplies, Matched, FirstOf;
  }

  /** No task without a session: both rows are first written by one intake. */
  lemma {:induction false} TasksHaveSessions(cfg: Config, history: seq<Db>, log: seq<Txn>, i: nat, task: string)
    requires cfg.versions && Run(cfg, history, log) && i < |history| && task in history[i].tasks
    ensures SessionId(task) in history[i].sessions
  {
    hide *;
    RunStarts(cfg, history, log);
    RunIsGood(cfg, history, log);
    if i == 0 {
      NoTaskYet(task);
    } else {
      StepCommits(cfg, history, log, i - 1);
      if task in history[i - 1].tasks {
        TasksHaveSessions(cfg, history, log, i - 1, task);
        SessionStays(cfg, history, i - 1, i, SessionId(task));
      } else {
        FirstTaskRow(cfg, history[..i], log[i - 1], WritesOf(cfg, log[i - 1]).value, task);
      }
    }
  }

  lemma NoTaskYet(task: string)
    ensures task !in EMPTY_DB.tasks
  {
  }

  lemma SessionStays(cfg: Config, history: seq<Db>, i: nat, j: nat, id: SessionId)
    requires GoodHistory(cfg, history) && i <= j < |history| && id in history[i].sessions
    ensures id in history[j].sessions
  {
    HistoryMeans(cfg, history, i, j);
    hide GoodHistory, Inv;
  }

  lemma FirstTaskRow(cfg: Config, history: seq<Db>, t: Txn, w: Writes, task: string)
    requires cfg.versions && Committing(cfg, history, t, w)
    requires task !in Last(history).tasks && task in Apply(Last(history), w).tasks
    ensures SessionId(task) in Apply(Last(history), w).sessions
  {
    hide GoodHistory, Inv, WritesOf, KeysFit, ForeignKeys, OneActiveSession, OneActiveAnswer, OneAuthorizedGo;
    assert w.taskId == task && w.task.Added? by {
      assert TaskFits(cfg, Last(history), w);
    }
    IntakeReadIsStarted(cfg, history, t);
    AddedByIntake(cfg, t, w);
    if t.sessionRead.Some? {
      TaskOutlives(cfg, history, t.at[1], |history| - 1, t.sessionRead.value);
    }
  }

  lemma IntakeReadIsStarted(cfg: Config, history: seq<Db>, t: Txn)
    requires GoodHistory(cfg, history) && Legal(history, t)
    ensures t.Intake? && t.sessionRead.Some? ==> t.sessionRead.value.state != New
  {
    if t.Intake? && t.sessionRead.Some? {
      HistoryMeans(cfg, history, t.at[1], t.at[1]);
      hide GoodHistory, Inv;
      SessionHasShape(cfg, history[t.at[1]], t.sessionRead.value.id);
    }
  }

  /** The transaction on answers left the card as it read it, while the stored card, changed since, is
      incomplete. */
  ghost predicate ReadStaleCard(before: Db, t: Txn) {
    && t.Answers? && t.seen.task.Some?
    && Merged(t.seen.task.value.card, t.seen.accepted) == t.seen.task.value.card
    && t.task in before.tasks && !Complete(before.tasks[t.task].card)
  }

  ghost predicate IsReady(db: Db, task: string) {
    SessionId(task) in db.sessions && db.sessions[SessionId(task)].state == ReadyForGo
  }

  lemma EnteringRow(cfg: Config, history: seq<Db>, log: seq<Txn>, i: nat, task: string)
    requires cfg.versions && Run(cfg, history, log) && i < |log|
    requires IsReady(history[i + 1], task) && !IsReady(history[i], task)
    ensures history[i + 1] != history[i] && WritesOf(cfg, log[i]).Some? && log[i].task == task
    ensures
      var w := WritesOf(cfg, log[i]).value;
      && (w.session.Added? || w.session.Changed?)
      && w.session.row.id == SessionId(task) && w.session.row.state == ReadyForGo
  {
    RunIsNamed(cfg, history, log, i);
    assert Step(cfg, history[..i + 1], log[i], history[i + 1]) && Last(history[..i + 1]) == history[i];
    hide Run, Named, Legal, WritesOf, Fits, Apply, Paired, OneAuthorizedGo;
    ReadIsNamed(history[..i + 1], log[i]);
    var w := WritesOf(cfg, log[i]).value;
    WritesAreNamed(cfg, log[i], w);
    RowsWritten(history[i], w, SessionId(task));
  }

  /** An intake that adds the session row found no task row. */
  lemma FreshTask(cfg: Config, history: seq<Db>, log: seq<Txn>, i: nat, w: Writes)
    requires cfg.versions && Run(cfg, history, log) && i < |log| && log[i].Intake? && GoodHistory(cfg, history[..i + 1])
    requires Committing(cfg, history[..i + 1], log[i], w) && w.session.Added?
    ensures log[i].taskRead.None?
  {
    var before, t := history[..i + 1], log[i];
    IntakeReadIsStarted(cfg, before, t);
    AddedByIntake(cfg, t, w);
    assert SessionFits(cfg, Last(before), w);
    var m := t.at[0];
    assert m < |before| && t.taskRead == Lookup(before[m].tasks, t.task) && before[m] == history[m];
    hide Run, Fits, WritesOf, Legal, Committing, GoodHistory;
    if t.taskRead.Some? {
      TasksHaveSessions(cfg, history, log, m, t.task);
    }
  }

  lemma ReadyCard(cfg: Config, t: Txn, w: Writes)
    requires WritesOf(cfg, t) == Some(w) && !w.session.Unchanged? && w.session.row.state == ReadyForGo
    requires t.Intake? ==> t.taskRead.None?
    ensures t.Intake? ==> w.task.Added?
    ensures t.Answers? && t.seen.task.Some? ==>
      (w.task.Unchanged? <==> Merged(t.seen.task.value.card, t.seen.accepted) == t.seen.task.value.card)
  {
    hide Gaps, Merged, QuestionsFor, NewAnswers, Replaced, GoodReplies, Matched, FirstOf;
  }

  lemma StoredCard(cfg: Config, db: Db, w: Writes, task: string)
    requires Inv(cfg, Apply(db, w)) && IsReady(Apply(db, w), task) && w.taskId == task
    ensures task in Apply(db, w).tasks
    ensures w.task.Unchanged? ==> Apply(db, w).tasks == db.tasks
    ensures !w.task.Unchanged? ==> Apply(db, w).tasks[task].card == w.task.row.card
  {
    SessionHasShape(cfg, Apply(db, w), SessionId(task));
    assert ForeignKeys(Apply(db, w));
  }

  /** The step by which a session becomes ready for /go found every required field filled in. The stored
      card is nevertheless incomplete afterwards exactly if the step answered questions, the answers did
      not change the card it had read, and an incomplete one has been stored meanwhile. */
  lemma EnteringReadyIsComplete(cfg: Config, history: seq<Db>, log: seq<Txn>, i: nat, task: string)
    requires cfg.versions && Run(cfg, history, log) && i < |log|
    requires IsReady(history[i + 1], task) && !IsReady(history[i], task)
    ensures log[i].task == task && Evaluated(log[i]).Some? && Complete(Evaluated(log[i]).value)
    ensures task in history[i + 1].tasks
    ensures !Complete(history[i + 1].tasks[task].card) <==> ReadStaleCard(history[i], log[i])
  {
    hide *;
    RunStarts(cfg, history, log);
    StepCommits(cfg, history, log, i);
    EnteringRow(cfg, history, log, i, task);
    EnteringCard(cfg, history, log, i, WritesOf(cfg, log[i]).value);
  }

  lemma EnteringCard(cfg: Config, history: seq<Db>, log: seq<Txn>, i: nat, w: Writes)
    requires cfg.versions && Run(cfg, history, log) && |history| == |log| + 1 && i < |log|
    requires GoodHistory(cfg, history[..i + 1]) && Last(history[..i + 1]) == history[i]
    requires Committing(cfg, history[..i + 1], log[i], w) && history[i + 1] == Apply(history[i], w)
    requires WritesOf(cfg, log[i]) == Some(w) && !w.session.Unchanged? && IsReady(history[i + 1], log[i].task)
    requires w.session.row.state == ReadyForGo
    ensures Evaluated(log[i]).Some? && Complete(Evaluated(log[i]).value)
    ensures log[i].task in history[i + 1].tasks
    ensures !Complete(history[i + 1].tasks[log[i].task].card) <==> ReadStaleCard(history[i], log[i])
  {
    hide Run, GoodHistory, Committing, WritesOf, Complete, Inv, Merged, IsReady, Apply;
    var t := log[i];
    ReadyWrites(cfg, t, w);
    RunIsGood(cfg, history, log);
    HistoryMeans(cfg, history, i + 1, i + 1);
    if t.Intake? {
      IntakeAdds(cfg, history[..i + 1], t, w);
      FreshTask(cfg, history, log, i, w);
    }
    ReadyCard(cfg, t, w);
    StoredCard(cfg, history[i], w, t.task);
  }

  lemma IntakeAdds(cfg: Config, history: seq<Db>, t: Txn, w: Writes)
    requires Committing(cfg, history, t, w) && t.Intake? && !w.session.Unchanged?
    ensures w.session.Added?
  {
    IntakeReadIsStarted(cfg, history, t);
    AddedByIntake(cfg, t, w);
  }

  // ---- What lets a session move on ----

  lemma WaitingWrites(cfg: Config, t: Txn, w: Writes)
    requires WritesOf(cfg, t) == Some(w)
    requires (w.session.Added? || w.session.Changed?) && w.session.row.state == WaitingAnswers
    ensures Evaluated(t).Some? && !Complete(Evaluated(t).value)
    ensures w.round.Some? && w.session.row.activeRound == w.round
    ensures w.questions == QuestionsFor(w.round.value, Gaps(Evaluated(t).value))
  {
    hide Gaps, Complete, Merged, QuestionsFor, NewAnswers, Replaced, GoodReplies, Matched, FirstOf;
    hide Holds, Blank, Missing;
    if Evaluated(t).Some? {
      GapsMean(Evaluated(t).value);
    }
  }

  lemma QuestionsWritten(db: Db, w: Writes, r: RoundId)
    requires w.questions.Keys !! db.questions.Keys && forall q :: q in db.questions ==> q.round != r
    ensures forall q: QuestionId | q.round == r :: q in Apply(db, w).questions <==> q in w.questions
    ensures forall q: QuestionId | q.round == r && q in w.questions :: Apply(db, w).questions[q] == w.questions[q]
  {
  }

  /** A round that opens asks for exactly the required fields that are missing: blocking questions,
      numbered from 1 in the order the fields are required. */
  lemma OpenedRoundAsksGaps(cfg: Config, history: seq<Db>, log: seq<Txn>, i: nat, r: RoundId)
    requires cfg.versions && Run(cfg, history, log) && i < |log|
    requires IsActive(history[i + 1], r) && !IsActive(history[i], r)
    ensures Evaluated(log[i]).Some? && !Complete(Evaluated(log[i]).value)
    ensures
      var gaps := Gaps(Evaluated(log[i]).value);
      && (forall q: QuestionId | q.round == r :: q in history[i + 1].questions <==> 1 <= q.ordinal <= |gaps|)
      && (forall q: QuestionId | q.round == r && q in history[i + 1].questions ::
        history[i + 1].questions[q] == Question(Some(gaps[q.ordinal - 1]), true, false))
  {
    StepCommits(cfg, history, log, i);
    var w := WritesOf(cfg, log[i]).value;
    RoundIsNew(cfg, history, log, i, r);
    hide Run, GoodHistory, Committing, WritesOf, Complete, IsActive, Gaps;
    WaitingWrites(cfg, log[i], w);
    QuestionsForMean(r, Gaps(Evaluated(log[i]).value));
    QuestionsWritten(history[i], w, r);
  }

  /** The round is the one the step wrote, and had no questions before. */
  lemma RoundIsNew(cfg: Config, history: seq<Db>, log: seq<Txn>, i: nat, r: RoundId)
    requires cfg.versions && Run(cfg, history, log) && i < |log|
    requires IsActive(history[i + 1], r) && !IsActive(history[i], r)
    ensures WritesOf(cfg, log[i]).Some?
    ensures
      var w := WritesOf(cfg, log[i]).value;
      && (w.session.Added? || w.session.Changed?) && w.session.row.state == WaitingAnswers
        && w.session.row.activeRound == Some(r)
      && w.questions.Keys !! history[i].questions.Keys
    ensures forall q :: q in history[i].questions ==> q.round != r
  {
    StepCommits(cfg, history, log, i);
    RunIsGood(cfg, history, log);
    var w := WritesOf(cfg, log[i]).value;
    HistoryMeans(cfg, history, i, i + 1);
    SessionHasShape(cfg, history[i + 1], r.session);
    RowsWritten(history[i], w, r.session);
    hide Run, GoodHistory, WritesOf, Legal, Apply, SessionsInv, AnswersInv, EventsInv, OutboxInv, TasksInv;
    if r in history[i].rounds {
      RoundInUse(cfg, history[i], history[i + 1], r);
    }
  }

  /** A committed round is waited on already, or never again. */
  lemma RoundInUse(cfg: Config, db: Db, db': Db, r: RoundId)
    requires Inv(cfg, db) && Inv(cfg, db') && Grows(db, db') && r in db.rounds && !IsActive(db, r)
    ensures !IsActive(db', r)
  {
    SessionHasShape(cfg, db, r.session);
    assert r.number <= db.sessions[r.session].roundsCount;
    assert SessionGrows(db.sessions[r.session], db'.sessions[r.session]);
    if IsActive(db', r) {
      SessionHasShape(cfg, db', r.session);
    }
  }

  lemma BlockedWrites(cfg: Config, t: Txn, w: Writes)
    requires WritesOf(cfg, t) == Some(w)
    requires (w.session.Added? || w.session.Changed?) && w.session.row.state == BlockedManual
    ensures Evaluated(t).Some? && !Complete(Evaluated(t).value) && w.session.row.roundsCount >= cfg.maxRounds
  {
    if Evaluated(t).Some? {
      GapsMean(Evaluated(t).value);
    }
    hide Gaps, Complete, Merged, QuestionsFor, NewAnswers, Replaced, GoodReplies, Matched, FirstOf;
  }

  /** A session is handed to a human only when its rounds are used up and fields are still missing. */
  lemma EnteringBlockedIsExhausted(cfg: Config, history: seq<Db>, log: seq<Txn>, i: nat, id: SessionId)
    requires cfg.versions && Run(cfg, history, log) && i < |log|
    requires id in history[i + 1].sessions && history[i + 1].sessions[id].state == BlockedManual
    requires id in history[i].sessions ==> history[i].sessions[id].state != BlockedManual
    ensures Evaluated(log[i]).Some? && !Complete(Evaluated(log[i]).value)
    ensures history[i + 1].sessions[id].roundsCount >= cfg.maxRounds
  {
    StepCommits(cfg, history, log, i);
    hide Run, GoodHistory, Committing, WritesOf, Complete;
    var w := WritesOf(cfg, log[i]).value;
    RowsWritten(history[i], w, id);
    BlockedWrites(cfg, log[i], w);
  }

  lemma ApprovedWrites(cfg: Config, t: Txn, w: Writes)
    requires WritesOf(cfg, t) == Some(w)
    requires (w.session.Added? || w.session.Changed?) && w.session.row.state == Approved
    ensures t.Go? && t.goSeen.session.Some? && t.goSeen.task.Some?
    ensures IsAdmitted(t.goAsk, t.goSeen.task.value)
    ensures t.goAsk.eventId in w.events && w.events[t.goAsk.eventId].authorized
      && w.events[t.goAsk.eventId].user == t.goAsk.user
  {
    hide Gaps, Complete, Merged, QuestionsFor, NewAnswers, Replaced, GoodReplies, Matched, FirstOf, Holds, IsAdmitted;
    if t.Go? {
      GoDecides(t.task, t.goAsk, t.goSeen);
    }
  }

  /** A session is approved only by a /go whose user is, by the task row it read, a maintainer, the reviewer,
      the author or an approver; the event recorded names that user. */
  lemma EnteringApprovedIsAuthorized(cfg: Config, history: seq<Db>, log: seq<Txn>, i: nat, id: SessionId)
    requires cfg.versions && Run(cfg, history, log) && i < |log|
    requires IsApproved(history[i + 1], id) && !IsApproved(history[i], id)
    ensures log[i].Go? && log[i].goSeen.task.Some?
    ensures IsAdmitted(log[i].goAsk, log[i].goSeen.task.value)
    ensures
      var ask := log[i].goAsk;
      ask.eventId in history[i + 1].events
      && history[i + 1].events[ask.eventId].authorized && history[i + 1].events[ask.eventId].user == ask.user
  {
    StepCommits(cfg, history, log, i);
    hide Run, GoodHistory, Committing, WritesOf, Holds;
    var w := WritesOf(cfg, log[i]).value;
    RowsWritten(history[i], w, id);
    ApprovedWrites(cfg, log[i], w);
  }

  // ---- Rules that never come into play ----

  /** No transaction records a risk level, so the stricter rule for high-risk tasks is never applied. */
  lemma HighRiskNeverApplied(cfg: Config, history: seq<Db>, log: seq<Txn>, i: nat)
    requires cfg.versions && Run(cfg, history, log) && i < |history|
    ensures forall t :: t in history[i].tasks ==> history[i].tasks[t].riskLevel == None
    ensures forall e :: e in history[i].events ==> !history[i].events[e].highRiskApplied
  {
    RunIsGood(cfg, history, log);
    hide GoodHistory, ForeignKeys, SessionsInv, RoundsInv, AnswersInv, OutboxInv;
    HistoryMeans(cfg, history, i, i);
  }

  lemma NewSessionNeedsKey(cfg: Config, db: Db, t: Txn)
    requires t.Intake? && t.sessionRead.None? && SessionId(t.task) in db.sessions
    ensures WritesOf(cfg, t).Some? && !SessionFits(cfg, db, WritesOf(cfg, t).value)
  {
    hide Gaps, QuestionsFor;
  }

  /** Once a task has a session, an intake that finds none open is rolled back: a closed briefing is
      never opened anew. */
  lemma BriefedOnce(cfg: Config, history: seq<Db>, log: seq<Txn>, i: nat)
    requires cfg.versions && Run(cfg, history, log) && i < |log|
    requires log[i].Intake? && log[i].sessionRead.None? && SessionId(log[i].task) in history[i].sessions
    ensures history[i + 1] == history[i]
  {
    assert |history| == |log| + 1;
    hide Run, GoodHistory, WritesOf, Legal, Apply, TaskFits, SessionFits, KeysFit, ForeignKeys;
    hide OneActiveSession, OneActiveAnswer, OneAuthorizedGo;
    StepCommits(cfg, history, log, i);
    NewSessionNeedsKey(cfg, history[i], log[i]);
  }
}
