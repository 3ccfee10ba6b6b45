/** The committed briefing database and what a commit checks: primary keys, foreign keys, unique
    indexes and optimistic versions (app/db/models.py). */
module BriefingSchema {
  import opened Wrappers
  import opened Contracts
  import opened BriefingFsm
  import opened Ids
  import opened GoAuthorizer

  // ---- Rows ----

  // The card fields a briefing can fill in. `task_type` and `target_repo` are required before a
  // briefing starts.
  datatype Field = TargetBranch | AffectedArea | BusinessGoal | ReviewerField | AcceptanceCriteria

  /** A stored card keeps lists as lists; an answer is always a text. */
  datatype Value = Text(text: string) | Items(items: seq<string>)

  datatype Card = Card(taskType: TaskType, fields: map<Field, Value>)

  datatype TaskRow = TaskRow(
    repo: string, author: string, reviewer: string, riskLevel: Option<RiskLevel>,
    card: Card, phase: string, cancelled: bool, version: nat)

  datatype Session = Session(
    id: SessionId, task: string, state: State, roundsCount: nat, activeRound: Option<RoundId>,
    version: nat, created: nat)

  datatype Question = Question(dimension: Option<Field>, blocking: bool, skipped: bool)

  datatype Answer = Answer(version: nat, superseded: bool, text: string)

  datatype Decision = Authorized | Rejected | IgnoredDuplicate

  datatype GoEvent = GoEvent(
    session: SessionId, task: string, user: string, rule: Option<Rule>, decision: Decision,
    authorized: bool, highRiskApplied: bool)

  datatype Job = RunTaskPhase(task: string, phase: string)

  datatype OutboxRow = OutboxRow(job: Job, created: nat, sent: bool)

  /** The columns of a round are its key: (session, round number). */
  datatype Db = Db(
    tasks: map<string, TaskRow>,
    sessions: map<SessionId, Session>,
    rounds: set<RoundId>,
    questions: map<QuestionId, Question>,
    answers: map<AnswerId, Answer>,
    events: map<string, GoEvent>,
    outbox: map<nat, OutboxRow>)

  const EMPTY_DB := Db(map[], map[], {}, map[], map[], map[], map[])

  // ---- What a transaction writes ----

  datatype RowWrite<R> = Unchanged | Added(row: R) | Changed(read: nat, row: R)

  datatype Writes = Writes(
    taskId: string,
    task: RowWrite<TaskRow>,
    session: RowWrite<Session>,
    round: Option<RoundId>,
    questions: map<QuestionId, Question>,
    answers: map<AnswerId, Answer>,
    superseded: set<AnswerId>,
    events: map<string, GoEvent>,
    outbox: map<nat, OutboxRow>,
    sent: set<nat>)

  function Nothing(task: string): Writes {
    Writes(task, Unchanged, Unchanged, None, map[], map[], {}, map[], map[], {})
  }

  // ---- Commit ----

  /** Two of the database's guards are switchable, so that each can be studied alone. */
  datatype Config = Config(maxRounds: int, versions: bool, goIndex: bool)

  function Put<K, R>(table: map<K, R>, key: K, w: RowWrite<R>): map<K, R> {
    if w.Unchanged? then table else table[key := w.row]
  }

  function Apply(db: Db, w: Writes): Db {
    Db(Put(db.tasks, w.taskId, w.task),
       if w.session.Unchanged? then db.sessions else db.sessions[w.session.row.id := w.session.row],
       if w.round.None? then db.rounds else db.rounds + {w.round.value},
       db.questions + w.questions,
       Superseded(db.answers, w.superseded) + w.answers,
       db.events + w.events,
       MarkedSent(db.outbox, w.sent) + w.outbox)
  }

  function Superseded(answers: map<AnswerId, Answer>, ids: set<AnswerId>): map<AnswerId, Answer> {
    map a | a in answers :: if a in ids then answers[a].(superseded := true) else answers[a]
  }

  function MarkedSent(outbox: map<nat, OutboxRow>, ids: set<nat>): map<nat, OutboxRow> {
    map i | i in outbox :: if i in ids then outbox[i].(sent := true) else outbox[i]
  }

  /** Row by row, what a commit leaves: new rows as written, the written session and task row, marks on answers and
      outbox rows, everything else as it was. */
  lemma CommittedRows(db: Db, w: Writes)
    ensures
      var db' := Apply(db, w);
      && (forall t :: t in db'.tasks <==> t in db.tasks || (t == w.taskId && !w.task.Unchanged?))
      && (forall t :: t in db'.tasks ==>
        db'.tasks[t] == if t == w.taskId && !w.task.Unchanged? then w.task.row else db.tasks[t])
      && (forall s :: s in db'.sessions <==> s in db.sessions || (!w.session.Unchanged? && s == w.session.row.id))
      && (forall s :: s in db'.sessions ==>
        db'.sessions[s] == if !w.session.Unchanged? && s == w.session.row.id then w.session.row else db.sessions[s])
      && (forall r :: r in db'.rounds <==> r in db.rounds || w.round == Some(r))
    ensures
      var db' := Apply(db, w);
      && db'.questions == db.questions + w.questions && db'.events == db.events + w.events
      && db'.answers.Keys == db.answers.Keys + w.answers.Keys && db'.outbox.Keys == db.outbox.Keys + w.outbox.Keys
      && (forall a :: a in w.answers ==> db'.answers[a] == w.answers[a])
      && (forall a :: a in db.answers && a !in w.answers ==>
        && db'.answers[a].text == db.answers[a].text && db'.answers[a].version == db.answers[a].version
        && (db'.answers[a].superseded <==> db.answers[a].superseded || a in w.superseded))
      && (forall i :: i in w.outbox ==> db'.outbox[i] == w.outbox[i])
      && (forall i :: i in db.outbox && i !in w.outbox ==>
        && db'.outbox[i].job == db.outbox[i].job && db'.outbox[i].created == db.outbox[i].created
        && (db'.outbox[i].sent <==> db.outbox[i].sent || i in w.sent))
  {
  }

  ghost predicate TaskFits(cfg: Config, db: Db, w: Writes) {
    && (w.task.Added? ==> w.taskId !in db.tasks)
    && (w.task.Changed? ==> w.taskId in db.tasks && (cfg.versions ==> db.tasks[w.taskId].version == w.task.read))
  }

  ghost predicate SessionFits(cfg: Config, db: Db, w: Writes) {
    && (w.session.Added? ==> w.session.row.id !in db.sessions)
    && (w.session.Changed? ==>
      w.session.row.id in db.sessions && (cfg.versions ==> db.sessions[w.session.row.id].version == w.session.read))
  }

  ghost predicate KeysFit(db: Db, w: Writes) {
    && (w.round.Some? ==> w.round.value !in db.rounds)
    && w.questions.Keys !! db.questions.Keys
    && w.answers.Keys !! db.answers.Keys
    && w.events.Keys !! db.events.Keys
    && w.outbox.Keys !! db.outbox.Keys
  }

  ghost predicate ForeignKeys(db: Db) {
    && (forall s :: s in db.sessions ==> db.sessions[s].task in db.tasks)
    && (forall r :: r in db.rounds ==> r.session in db.sessions)
    && (forall q :: q in db.questions ==> q.round in db.rounds)
    && (forall a :: a in db.answers ==> a.question in db.questions)
    && (forall e :: e in db.events ==> db.events[e].session in db.sessions)
  }

  ghost predicate OneActiveSession(db: Db) {
    forall s, t :: s in db.sessions && t in db.sessions && s != t && db.sessions[s].task == db.sessions[t].task ==>
      db.sessions[s].state in TERMINAL || db.sessions[t].state in TERMINAL
  }

  ghost predicate OneActiveAnswer(db: Db) {
    forall a, b :: a in db.answers && b in db.answers && a != b && a.question == b.question ==>
      db.answers[a].superseded || db.answers[b].superseded
  }

  ghost predicate OneAuthorizedGo(db: Db) {
    forall e, f | e in db.events && f in db.events && db.events[e].authorized && db.events[f].authorized ::
      db.events[e].session == db.events[f].session ==> e == f
  }

  /** Everything the database re-checks when the transaction commits. */
  ghost predicate Fits(cfg: Config, db: Db, w: Writes) {
    && TaskFits(cfg, db, w) && SessionFits(cfg, db, w) && KeysFit(db, w)
    && ForeignKeys(Apply(db, w)) && OneActiveSession(Apply(db, w)) && OneActiveAnswer(Apply(db, w))
    && (cfg.goIndex ==> OneAuthorizedGo(Apply(db, w)))
  }

  /** A transaction that raised has no writes; one that does not fit is rolled back. */
  ghost function Commit(cfg: Config, db: Db, w: Option<Writes>): Db {
    if w.Some? && Fits(cfg, db, w.value) then Apply(db, w.value) else db
  }
}
