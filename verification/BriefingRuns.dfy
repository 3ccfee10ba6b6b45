/** Runs of the briefing transactions. Each transaction reads rows at arbitrary earlier moments, in
    order, and commits or is rolled back; any number of them interleave in any way. No lock is
    assumed anywhere. */
module BriefingRuns {
  import opened Wrappers
  import opened BriefingFsm
  import opened Ids
  import opened BriefingSchema
  import opened Briefing

  // ---- What queries may return ----

  function Lookup<K, R>(table: map<K, R>, key: K): Option<R> {
    if key in table then Some(table[key]) else None
  }

  /** The newest session of a task, in any state. */
  ghost predicate ReadsLatest(db: Db, task: string, r: Option<Session>) {
    && (r.None? ==> forall s :: s in db.sessions ==> db.sessions[s].task != task)
    && (r.Some? ==>
      && r.value.id in db.sessions && db.sessions[r.value.id] == r.value && r.value.task == task
      && forall s :: s in db.sessions && db.sessions[s].task == task ==> db.sessions[s].created <= r.value.created)
  }

  /** The session of a task that is not in a terminal state. */
  ghost predicate ReadsActive(db: Db, task: string, r: Option<Session>) {
    && (r.None? ==> forall s :: s in db.sessions && db.sessions[s].task == task ==> db.sessions[s].state in TERMINAL)
    && (r.Some? ==>
      && r.value.id in db.sessions && db.sessions[r.value.id] == r.value && r.value.task == task
      && r.value.state !in TERMINAL)
  }

  function ByOrdinal(db: Db, round: RoundId): map<nat, QuestionId> {
    map q | q in db.questions && q.round == round :: q.ordinal := q
  }

  ghost predicate ReadsActiveAnswer(db: Db, q: QuestionId, active: map<QuestionId, (AnswerId, Answer)>) {
    && (q in active ==>
      var (id, row) := active[q];
      id in db.answers && db.answers[id] == row && id.question == q && !row.superseded)
    && (q !in active ==> forall a :: a in db.answers && a.question == q ==> db.answers[a].superseded)
  }

  /** Active answers of a session as (dimension, text), the transaction's own among them, each once,
      in whatever order. */
  ghost predicate ListsAccepted(db: Db, own: map<AnswerId, Answer>, replaced: set<AnswerId>, s: SessionId,
                                order: seq<AnswerId>, accepted: seq<(Option<Field>, string)>)
  {
    && |order| == |accepted|
    && (forall i, j :: 0 <= i < j < |order| ==> order[i] != order[j])
    && (forall a :: a in order <==>
      a in own || (a in db.answers && a.question.round.session == s && !db.answers[a].superseded && a !in replaced))
    && (forall i :: 0 <= i < |order| ==>
      && order[i].question in db.questions
      && accepted[i] == (db.questions[order[i].question].dimension,
                         if order[i] in own then own[order[i]].text
                         else if order[i] in db.answers then db.answers[order[i]].text else ""))
  }

  // ---- Transactions and steps ----

  /** `at` are the moments of the transaction's queries. */
  datatype Txn =
    | Intake(task: string, at: seq<nat>, form: Form, now: nat, taskRead: Option<TaskRow>, sessionRead: Option<Session>)
    | Answers(task: string, at: seq<nat>, ask: AnswerAsk, seen: AnswerReads, order: seq<AnswerId>)
    | Go(task: string, at: seq<nat>, goAsk: GoAsk, goSeen: GoReads)
    | Cancel(task: string, at: seq<nat>, taskRead: Option<TaskRow>, sessionRead: Option<Session>)
    | Progress(task: string, at: seq<nat>, phase: string, taskRead: Option<TaskRow>)
    | Relay(task: string, at: seq<nat>, ids: set<nat>)

  ghost predicate Ordered(at: seq<nat>, n: nat) {
    (forall i :: 0 <= i < |at| ==> at[i] < n) && forall i, j :: 0 <= i <= j < |at| ==> at[i] <= at[j]
  }

  function GoodOf(t: Txn): seq<Good>
    requires t.Answers?
  {
    GoodReplies(t.ask.replies, t.seen.byOrdinal, t.ask.threshold)
  }

  /** Every query of the transaction returned what the database held at that moment. */
  ghost predicate Legal(history: seq<Db>, t: Txn) {
    && Ordered(t.at, |history|)
    && match t
       case Intake(task, at, _, _, taskRead, sessionRead) =>
         && |at| == 2
         && taskRead == Lookup(history[at[0]].tasks, task)
         && ReadsActive(history[at[1]], task, sessionRead)
       case Answers(task, at, ask, seen, order) =>
         AnswersLegal(history, t)
       case Go(task, at, ask, seen) =>
         && |at| == 4
         && ReadsLatest(history[at[0]], task, seen.session)
         && seen.replay == (ask.eventId in history[at[1]].events)
         && (seen.session.Some? ==> (seen.earlier <==> HasAuthorized(history[at[2]], seen.session.value.id)))
         && seen.task == Lookup(history[at[3]].tasks, task)
       case Cancel(task, at, taskRead, sessionRead) =>
         && |at| == 2
         && ReadsActive(history[at[0]], task, sessionRead)
         && taskRead == Lookup(history[at[1]].tasks, task)
       case Progress(task, at, _, taskRead) =>
         |at| == 1 && taskRead == Lookup(history[at[0]].tasks, task)
       case Relay(_, at, ids) =>
         |at| == 1 && ids <= history[at[0]].outbox.Keys
  }

  ghost predicate AnswersLegal(history: seq<Db>, t: Txn)
    requires t.Answers? && Ordered(t.at, |history|)
  {
    var good, at, seen := GoodOf(t), t.at, t.seen;
    && |at| == 5 + |good|
    && ReadsActive(history[at[0]], t.task, seen.session)
    && (seen.session.Some? && t.ask.round.Some? ==>
      var wanted := RoundId(seen.session.value.id, t.ask.round.value);
      seen.round == if wanted in history[at[1]].rounds then Some(wanted) else None)
    && (seen.round.Some? ==> seen.byOrdinal == ByOrdinal(history[at[2]], seen.round.value))
    && (forall i :: 0 <= i < |good| ==> ReadsActiveAnswer(history[at[3 + i]], good[i].question, seen.active))
    && seen.task == Lookup(history[at[3 + |good|]].tasks, t.task)
    && (seen.session.Some? ==>
      ListsAccepted(history[at[4 + |good|]], NewAnswers(t.ask.comment, good, seen.active), Replaced(good, seen.active),
                    seen.session.value.id, t.order, seen.accepted))
  }

  ghost predicate HasAuthorized(db: Db, s: SessionId) {
    exists e :: e in db.events && db.events[e].authorized && db.events[e].session == s
  }

  function WritesOf(cfg: Config, t: Txn): Option<Writes> {
    match t
    case Intake(task, _, form, now, taskRead, sessionRead) => Some(IntakeWrites(task, form, now, taskRead, sessionRead))
    case Answers(task, _, ask, seen, _) => AnswerWrites(cfg, task, ask, seen)
    case Go(task, _, ask, seen) => Some(GoWrites(task, ask, seen))
    case Cancel(task, _, taskRead, sessionRead) => CancelWrites(task, sessionRead, taskRead)
    case Progress(task, _, phase, taskRead) => Some(ProgressWrites(task, phase, taskRead))
    case Relay(_, _, ids) => Some(RelayWrites(ids))
  }

  /** One transaction ends: it commits, or it is rolled back (a failed check, an exception, or a
      crash at any point). */
  ghost predicate Step(cfg: Config, history: seq<Db>, t: Txn, next: Db)
    requires |history| > 0
  {
    Legal(history, t) && (next == Commit(cfg, Last(history), WritesOf(cfg, t)) || next == Last(history))
  }

  ghost predicate Run(cfg: Config, history: seq<Db>, log: seq<Txn>) {
    && |history| == |log| + 1 && history[0] == EMPTY_DB
    && forall i :: 0 <= i < |log| ==> Step(cfg, history[..i + 1], log[i], history[i + 1])
  }
}
