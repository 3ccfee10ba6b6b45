/** Where the briefing protocol stops: which guards single start needs, and what completeness at
    READY_FOR_GO does not promise. Each limit is a concrete run next to the theorem that says exactly
    when the property holds. */
module BriefingLimits {
  import opened Wrappers
  import opened Contracts
  import opened BriefingFsm
  import opened Ids
  import opened GoAuthorizer
  import opened BriefingSchema
  import opened Briefing
  import opened BriefingRuns
  import opened BriefingInvariant
  import opened BriefingSafety

  // ---- A small run ----

  const TASK := "T-1"
  const ID := SessionId(TASK)
  const FULL := Card(Refactor, map[TargetBranch := Text("main"), AffectedArea := Items(["app"]),
                                   BusinessGoal := Text("goal"), ReviewerField := Text("rev")])
  const BARE := Card(Refactor, map[TargetBranch := Text("main"), AffectedArea := Items([]), BusinessGoal := Text("")])
  const ROW := TaskRow("repo", "ann", "rev", None, FULL, "intake", false, 1)
  const READY := Session(ID, TASK, ReadyForGo, 0, None, 3, 0)
  const BEGUN := EMPTY_DB.(tasks := map[TASK := ROW], sessions := map[ID := READY])

  function IntakeOf(card: Card, at: nat, taskRead: Option<TaskRow>, sessionRead: Option<Session>): Txn {
    Intake(TASK, [at, at], Form("repo", "ann", "rev", card), 0, taskRead, sessionRead)
  }

  /** The author says /go, having seen the session ready and no earlier event. */
  function GoOf(event: string, outbox: nat): Txn {
    Go(TASK, [1, 1, 1, 1], GoAsk("ann", event, outbox, 0, false, [], true),
       GoReads(Some(READY), false, false, Some(ROW)))
  }

  const EVENT := GoEvent(ID, TASK, "ann", Some(Creator), Authorized, true, false)

  /** The four fields of a refactoring, one by one. */
  lemma GapsOfFour(card: Card)
    requires card.taskType == Refactor
    ensures Gaps(card) ==
      (if Missing(card, TargetBranch) then [TargetBranch] else [])
      + (if Missing(card, AffectedArea) then [AffectedArea] else [])
      + (if Missing(card, BusinessGoal) then [BusinessGoal] else [])
      + (if Missing(card, ReviewerField) then [ReviewerField] else [])
  {
    hide Missing;
    var fields := [TargetBranch, AffectedArea, BusinessGoal, ReviewerField];
    assert RequiredFields(Refactor) == fields;
    assert fields[..3] == [TargetBranch, AffectedArea, BusinessGoal];
    assert fields[..3][..2] == [TargetBranch, AffectedArea];
    assert fields[..3][..2][..1] == [TargetBranch] && fields[..3][..2][..1][..0] == [];
    assert MissingOf(card, fields[..3][..2][..1]) == if Missing(card, TargetBranch) then [TargetBranch] else [];
    assert MissingOf(card, fields[..3][..2]) ==
      MissingOf(card, fields[..3][..2][..1]) + if Missing(card, AffectedArea) then [AffectedArea] else [];
    assert MissingOf(card, fields[..3]) ==
      MissingOf(card, fields[..3][..2]) + if Missing(card, BusinessGoal) then [BusinessGoal] else [];
  }

  lemma TextsAreFilled()
    ensures !Blank("main") && !Blank("goal") && !Blank("rev") && "goal" != ""
  {
    assert "main"[0] == 'm' && "goal"[0] == 'g' && "rev"[0] == 'r';
  }

  lemma FullHasNoGaps()
    ensures Gaps(FULL) == [] && Complete(FULL) && !Complete(BARE) && FULL != BARE
  {
    hide Blank, Gaps, Complete;
    TextsAreFilled();
    GapsOfFour(FULL);
    GapsMean(FULL);
    GapsOfFour(BARE);
    GapsMean(BARE);
  }

  lemma BeginWrites()
    ensures IntakeWrites(TASK, IntakeOf(FULL, 0, None, None).form, 0, None, None)
      == Nothing(TASK).(task := Added(ROW), session := Added(READY))
  {
    FullHasNoGaps();
  }

  lemma BeginFits(cfg: Config)
    ensures
      var w := Nothing(TASK).(task := Added(ROW), session := Added(READY));
      Apply(EMPTY_DB, w) == BEGUN && Fits(cfg, EMPTY_DB, w)
  {
    assert Apply(EMPTY_DB, Nothing(TASK).(task := Added(ROW), session := Added(READY))) == BEGUN;
  }

  lemma BeginRun(cfg: Config)
    ensures Run(cfg, [EMPTY_DB, BEGUN], [IntakeOf(FULL, 0, None, None)])
  {
    BeginWrites();
    BeginFits(cfg);
    hide Fits, Apply, IntakeWrites;
    var t := IntakeOf(FULL, 0, None, None);
    assert Run(cfg, [EMPTY_DB], []);
    assert Step(cfg, [EMPTY_DB], t, BEGUN);
    RunExtends(cfg, [EMPTY_DB], [], t, BEGUN);
    assert [EMPTY_DB] + [BEGUN] == [EMPTY_DB, BEGUN];
  }

  /** The author matches one rule. */
  lemma AuthorRules()
    ensures Matched(GoContextOf(GoOf("", 0).goAsk, ROW)) == {Creator} && FirstOf(PRIORITY, {Creator}) == Some(Creator)
  {
    hide FULL;
    assert "ann"[0] != "rev"[0];
    MatchedMeans(GoContextOf(GoOf("", 0).goAsk, ROW));
    FirstIsStrongest(PRIORITY, {Creator});
  }

  lemma GoAccepted(event: string, outbox: nat)
    ensures GoWrites(TASK, GoOf(event, outbox).goAsk, GoOf(event, outbox).goSeen)
      == StartWrites(READY, event, EVENT, outbox, 0)
  {
    hide FULL, Matched, FirstOf, PRIORITY;
    AuthorRules();
    assert GoContextOf(GoOf(event, outbox).goAsk, ROW) == GoContextOf(GoOf("", 0).goAsk, ROW);
  }

  // ---- Which guards single start needs ----

  const ONCE := Started(BEGUN, READY, "e1", EVENT, 1, 0)
  const TWICE := Started(ONCE, READY, "e2", EVENT, 2, 0)

  lemma FirstGoFits(cfg: Config)
    ensures Fits(cfg, BEGUN, StartWrites(READY, "e1", EVENT, 1, 0))
      && Apply(BEGUN, StartWrites(READY, "e1", EVENT, 1, 0)) == ONCE
  {
    StartEffect(BEGUN, READY, "e1", EVENT, 1, 0);
  }

  lemma SecondGoFits(cfg: Config)
    requires !cfg.versions && !cfg.goIndex
    ensures Fits(cfg, ONCE, StartWrites(READY, "e2", EVENT, 2, 0))
      && Apply(ONCE, StartWrites(READY, "e2", EVENT, 2, 0)) == TWICE
  {
    StartEffect(ONCE, READY, "e2", EVENT, 2, 0);
    assert "e1"[1] != "e2"[1];
  }

  lemma GoIsStep(cfg: Config, history: seq<Db>, event: string, outbox: nat, next: Db)
    requires |history| >= 2 && history[1] == BEGUN
    requires Fits(cfg, Last(history), StartWrites(READY, event, EVENT, outbox, 0))
    requires next == Apply(Last(history), StartWrites(READY, event, EVENT, outbox, 0))
    ensures Step(cfg, history, GoOf(event, outbox), next)
  {
    GoAccepted(event, outbox);
    hide Fits, Apply, GoWrites, StartWrites;
  }

  lemma TwiceIsTwo()
    ensures |PlansOf(TWICE, TASK)| == 2 && !OneAuthorizedGo(TWICE)
  {
    assert "e1"[1] != "e2"[1];
    assert "e1" in TWICE.events && "e2" in TWICE.events;
    assert PlansOf(TWICE, TASK) == {1, 2};
  }

  /** Without version checks and without the unique index, a /go that read the session before an
      earlier /go committed starts the task a second time. */
  lemma StartsTwice(cfg: Config) returns (history: seq<Db>, log: seq<Txn>)
    requires !cfg.versions && !cfg.goIndex
    ensures Run(cfg, history, log) && |history| > 0
    ensures |PlansOf(Last(history), TASK)| == 2 && !OneAuthorizedGo(Last(history))
  {
    hide Run, Step, Fits, Apply, StartWrites, Started, OneAuthorizedGo, PlansOf;
    BeginRun(cfg);
    history, log := [EMPTY_DB, BEGUN], [IntakeOf(FULL, 0, None, None)];
    FirstGoFits(cfg);
    GoIsStep(cfg, history, "e1", 1, ONCE);
    RunExtends(cfg, history, log, GoOf("e1", 1), ONCE);
    history, log := history + [ONCE], log + [GoOf("e1", 1)];
    SecondGoFits(cfg);
    GoIsStep(cfg, history, "e2", 2, TWICE);
    RunExtends(cfg, history, log, GoOf("e2", 2), TWICE);
    history, log := history + [TWICE], log + [GoOf("e2", 2)];
    TwiceIsTwo();
  }

  /** Every task is started at most once, and every session has at most one authorised event. */
  ghost predicate StartsOnce(db: Db) {
    OneAuthorizedGo(db) && forall task :: |PlansOf(db, task)| <= 1
  }

  ghost predicate AlwaysOnce(cfg: Config) {
    forall history, log :: Run(cfg, history, log) ==> |history| > 0 && StartsOnce(Last(history))
  }

  /** Version checks alone are enough, the unique index alone is enough, and without both a task can be
      started twice. */
  lemma OneGuardIsEnough(cfg: Config)
    ensures AlwaysOnce(cfg) <==> cfg.versions || cfg.goIndex
  {
    hide Run, StartsOnce;
    forall history, log | Run(cfg, history, log) && (cfg.versions || cfg.goIndex)
      ensures |history| > 0 && StartsOnce(Last(history))
    {
      LastIsOnce(cfg, history, log);
    }
    if !cfg.versions && !cfg.goIndex {
      var history, log := StartsTwice(cfg);
      TwiceIsNotOnce(Last(history));
      assert Run(cfg, history, log);
    }
  }

  lemma TwiceIsNotOnce(db: Db)
    requires |PlansOf(db, TASK)| == 2
    ensures !StartsOnce(db)
  {
  }

  lemma LastIsOnce(cfg: Config, history: seq<Db>, log: seq<Txn>)
    requires Run(cfg, history, log) && (cfg.versions || cfg.goIndex)
    ensures |history| > 0 && StartsOnce(Last(history))
  {
    assert history != [] ==> Last(history) == history[|history| - 1];
    hide *;
    RunStarts(cfg, history, log);
    forall task
      ensures |PlansOf(history[|log|], task)| <= 1
    {
      if cfg.goIndex {
        IndexAloneStartsOnce(cfg, history, log, |log|, task);
      } else {
        SingleStart(cfg, history, log, |log|, task);
      }
    }
    LastAuthorizedOnce(cfg, history, log);
    IsOnce(history[|log|]);
  }

  lemma LastAuthorizedOnce(cfg: Config, history: seq<Db>, log: seq<Txn>)
    requires Run(cfg, history, log) && (cfg.versions || cfg.goIndex) && |history| == |log| + 1
    ensures OneAuthorizedGo(history[|log|])
  {
    if cfg.goIndex {
      IndexAlone(cfg, history, log, |log|);
    } else {
      RunIsGood(cfg, history, log);
      GrowsToLast(cfg, history, |log|);
    }
  }

  lemma IsOnce(db: Db)
    requires OneAuthorizedGo(db) && forall task :: |PlansOf(db, task)| <= 1
    ensures StartsOnce(db)
  {
  }

  // ---- The stored card after READY_FOR_GO ----

  /** The task row a transaction updates is the row it read. */
  lemma TaskAtCommit(cfg: Config, history: seq<Db>, m: nat, task: string, w: Writes)
    requires cfg.versions && GoodHistory(cfg, history) && m < |history| && w.taskId == task
    requires task in history[m].tasks && TaskFits(cfg, Last(history), w)
    requires w.task.Changed? && w.task.read == history[m].tasks[task].version
    ensures task in Last(history).tasks && Last(history).tasks[task] == history[m].tasks[task]
  {
    GrowsToLast(cfg, history, m);
    hide GoodHistory, Inv;
    assert TaskGrows(history[m].tasks[task], Last(history).tasks[task]);
  }

  /** The card the writes leave for a task. */
  function CardLeft(db: Db, w: Writes, task: string): Card
    requires task in db.tasks
  {
    if w.task.Unchanged? || w.taskId != task then db.tasks[task].card else w.task.row.card
  }

  lemma CardLeftIsStored(db: Db, w: Writes, task: string)
    requires task in db.tasks
    ensures task in Apply(db, w).tasks && Apply(db, w).tasks[task].card == CardLeft(db, w, task)
  {
  }

  /** Intake of a task that has a session writes nothing, or the new card. */
  lemma IntakeCard(cfg: Config, db: Db, t: Txn, w: Writes)
    requires t.Intake? && WritesOf(cfg, t) == Some(w) && SessionFits(cfg, db, w) && SessionId(t.task) in db.sessions
    requires t.sessionRead.Some? ==> t.sessionRead.value.state != New
    ensures w == Nothing(t.task) || (!w.task.Unchanged? && w.taskId == t.task && w.task.row.card == t.form.card)
  {
    hide Gaps, QuestionsFor;
  }

  /** Flags and phases are written back with the card that was read. */
  lemma FlagCard(cfg: Config, t: Txn, w: Writes)
    requires (t.Cancel? || t.Progress?) && WritesOf(cfg, t) == Some(w) && !w.task.Unchanged?
    ensures t.taskRead.Some? && w.task.Changed? && w.taskId == t.task
    ensures w.task.read == t.taskRead.value.version && w.task.row.card == t.taskRead.value.card
  {
  }

  lemma OtherWrites(cfg: Config, t: Txn, w: Writes)
    requires WritesOf(cfg, t) == Some(w)
    ensures w.task.Unchanged? || w.taskId == t.task
    ensures t.Go? || t.Relay? ==> w.task.Unchanged?
    ensures t.Answers? && !w.session.Changed? ==> w == Nothing(t.task)
  {
    hide Gaps, Merged, QuestionsFor, NewAnswers, Replaced, GoodReplies, Matched, FirstOf;
  }

  lemma FlagStepCard(cfg: Config, history: seq<Db>, t: Txn, w: Writes)
    requires cfg.versions && Committing(cfg, history, t, w) && (t.Cancel? || t.Progress?)
    requires t.task in Last(history).tasks
    ensures CardLeft(Last(history), w, t.task) == Last(history).tasks[t.task].card
  {
    if !w.task.Unchanged? {
      FlagCard(cfg, t, w);
      TaskAtCommit(cfg, history, if t.Cancel? then t.at[1] else t.at[0], t.task, w);
    }
  }

  lemma IntakeStepCard(cfg: Config, history: seq<Db>, t: Txn, w: Writes)
    requires cfg.versions && Committing(cfg, history, t, w) && t.Intake?
    requires SessionId(t.task) in Last(history).sessions && t.task in Last(history).tasks
    ensures w == Nothing(t.task) || CardLeft(Last(history), w, t.task) == t.form.card
  {
    hide IntakeWrites, Inv;
    if t.sessionRead.Some? {
      HistoryMeans(cfg, history, t.at[1], t.at[1]);
      SessionHasShape(cfg, history[t.at[1]], t.sessionRead.value.id);
    }
    IntakeCard(cfg, Last(history), t, w);
  }

  lemma AnswerStepNothing(cfg: Config, history: seq<Db>, t: Txn, w: Writes)
    requires cfg.versions && Committing(cfg, history, t, w) && t.Answers?
    requires SessionId(t.task) in Last(history).sessions
      && Last(history).sessions[SessionId(t.task)].state == ReadyForGo
    ensures w == Nothing(t.task)
  {
    OtherWrites(cfg, t, w);
    if w.session.Changed? {
      AnswerReplaces(cfg, t.task, t.ask, t.seen, w);
      ReadAtCommit(cfg, history, t.at[0], t.seen.session.value, w);
    }
  }

  /** What a commit makes of the card of a task whose session is ready for /go: an intake replaces it,
      nothing else touches it. */
  lemma CardAfter(cfg: Config, history: seq<Db>, t: Txn, w: Writes, task: string)
    requires cfg.versions && Committing(cfg, history, t, w) && task in Last(history).tasks
    requires SessionId(task) in Last(history).sessions && Last(history).sessions[SessionId(task)].state == ReadyForGo
    ensures w == Nothing(task)
      || CardLeft(Last(history), w, task)
        == if t.Intake? && t.task == task then t.form.card else Last(history).tasks[task].card
  {
    OtherWrites(cfg, t, w) by {
      assert WritesOf(cfg, t) == Some(w);
    }
    hide Committing;
    if t.task == task {
      match t {
        case Intake(_, _, _, _, _, _) => IntakeStepCard(cfg, history, t, w);
        case Answers(_, _, _, _, _) => AnswerStepNothing(cfg, history, t, w);
        case Cancel(_, _, _, _) => FlagStepCard(cfg, history, t, w);
        case Progress(_, _, _, _) => FlagStepCard(cfg, history, t, w);
        case Go(_, _, _, _) =>
        case Relay(_, _, _) =>
      }
    }
  }

  /** While a task is ready for /go, a step that changes anything leaves its card complete exactly if an
      intake of the task brought a complete one, or there was no intake of it and the card was complete. */
  lemma CardStaysCompleteIff(cfg: Config, history: seq<Db>, log: seq<Txn>, i: nat, task: string)
    requires cfg.versions && Run(cfg, history, log) && i < |log|
    requires task in history[i].tasks && IsReady(history[i], task)
    ensures task in history[i + 1].tasks
    ensures history[i + 1] == history[i] ||
      (Complete(history[i + 1].tasks[task].card) <==>
        Complete(if log[i].Intake? && log[i].task == task then log[i].form.card else history[i].tasks[task].card))
  {
    StepCommits(cfg, history, log, i);
    if history[i + 1] != history[i] {
      hide Run, GoodHistory, Committing, WritesOf, Complete, Apply;
      var w := WritesOf(cfg, log[i]).value;
      CardAfter(cfg, history[..i + 1], log[i], w, task);
      CardLeftIsStored(history[i], w, task);
      ApplyNothing(history[i], task);
    }
  }

  ghost predicate HasCompleteCard(db: Db, task: string) {
    task in db.tasks && Complete(db.tasks[task].card)
  }

  /** Step `k` committed an intake of the task with an incomplete card. */
  ghost predicate Empties(history: seq<Db>, log: seq<Txn>, k: nat, task: string)
    requires k < |log| && |history| == |log| + 1
  {
    history[k + 1] != history[k] && log[k].Intake? && log[k].task == task && !Complete(log[k].form.card)
  }

  /** From the step that made a task ready for /go, for as long as it stays ready, its card is complete all
      the time exactly if that step did not work on a stale card and no intake with an incomplete card
      has been committed since. */
  lemma {:induction false} ReadyCardIff(cfg: Config, history: seq<Db>, log: seq<Txn>, i: nat, j: nat, task: string)
    requires cfg.versions && Run(cfg, history, log) && |history| == |log| + 1 && i < j < |history|
    requires !IsReady(history[i], task) && forall k :: i < k <= j ==> IsReady(history[k], task)
    ensures (forall k :: i < k <= j ==> HasCompleteCard(history[k], task)) <==>
      !ReadStaleCard(history[i], log[i]) && forall k :: i < k < j ==> !Empties(history, log, k, task)
  {
    hide Run, ReadStaleCard, Complete;
    if j == i + 1 {
      EnteringReadyIsComplete(cfg, history, log, i, task);
    } else {
      ReadyCardIff(cfg, history, log, i, j - 1, task);
      ReadyHasTask(cfg, history, log, j - 1, task);
      CardStaysCompleteIff(cfg, history, log, j - 1, task);
      assert HasCompleteCard(history[j - 1], task) ==>
        (HasCompleteCard(history[j], task) <==> !Empties(history, log, j - 1, task));
    }
  }

  lemma ReadyHasTask(cfg: Config, history: seq<Db>, log: seq<Txn>, i: nat, task: string)
    requires cfg.versions && Run(cfg, history, log) && i < |history| && IsReady(history[i], task)
    ensures task in history[i].tasks
  {
    RunIsGood(cfg, history, log);
    HistoryMeans(cfg, history, i, i);
    hide Run, GoodHistory, RoundsInv, AnswersInv, EventsInv, OutboxInv, TasksInv;
    assert SessionShape(cfg, history[i].sessions[SessionId(task)]);
  }

  // ---- The run that shows it ----

  const EMPTIED := BEGUN.(tasks := map[TASK := ROW.(card := BARE, version := 2)])

  const AGAIN := Nothing(TASK).(task := Changed(1, ROW.(card := BARE, version := 2)))

  lemma AgainFits(cfg: Config)
    ensures Apply(BEGUN, AGAIN) == EMPTIED && Fits(cfg, BEGUN, AGAIN)
  {
    hide BARE, FULL;
    NothingSuperseded(BEGUN.answers);
    NothingSent(BEGUN.outbox);
    assert Apply(BEGUN, AGAIN) == EMPTIED;
  }

  lemma AgainIsStep(cfg: Config)
    ensures Step(cfg, [EMPTY_DB, BEGUN], IntakeOf(BARE, 1, Some(ROW), Some(READY)), EMPTIED)
  {
    hide BARE, FULL, Fits, Apply, EMPTIED, Gaps;
    FullHasNoGaps();
    AgainFits(cfg);
    assert IntakeWrites(TASK, IntakeOf(BARE, 1, Some(ROW), Some(READY)).form, 0, Some(ROW), Some(READY)) == AGAIN;
  }

  /** A second intake empties the stored card while the session stays ready for /go, under every
      configuration, and a /go is then accepted on it. */
  lemma ApprovedWithoutCard(cfg: Config) returns (history: seq<Db>, log: seq<Txn>)
    ensures Run(cfg, history, log)
    ensures IsApproved(Last(history), ID) && TASK in Last(history).tasks && !Complete(Last(history).tasks[TASK].card)
  {
    hide Run, Step, Apply, Fits;
    BeginRun(cfg);
    AgainIsStep(cfg);
    var again := IntakeOf(BARE, 1, Some(ROW), Some(READY));
    history, log := [EMPTY_DB, BEGUN], [IntakeOf(FULL, 0, None, None)];
    RunExtends(cfg, history, log, again, EMPTIED);
    history, log := history + [EMPTIED], log + [again];
    EmptiedGoFits(cfg);
    var next := Started(EMPTIED, READY, "e1", EVENT, 1, 0);
    GoIsStep(cfg, history, "e1", 1, next);
    RunExtends(cfg, history, log, GoOf("e1", 1), next);
    history, log := history + [next], log + [GoOf("e1", 1)];
    FullHasNoGaps();
  }

  lemma EmptiedGoFits(cfg: Config)
    ensures Fits(cfg, EMPTIED, StartWrites(READY, "e1", EVENT, 1, 0))
    ensures Apply(EMPTIED, StartWrites(READY, "e1", EVENT, 1, 0)) == Started(EMPTIED, READY, "e1", EVENT, 1, 0)
  {
    StartEffect(EMPTIED, READY, "e1", EVENT, 1, 0);
  }

  // ---- The run in which the card is incomplete from the start ----

  // The briefing asks for the business goal. While the answer is worked on, one intake brings the full
  // card and another the first one again.
  const GAP := FULL.(fields := FULL.fields[BusinessGoal := Text("")])
  const ROUND := RoundId(ID, 1)
  const ASKED := QuestionId(ROUND, 1)
  const WAITING := Session(ID, TASK, WaitingAnswers, 1, Some(ROUND), 4, 0)
  const GAP_ROW := ROW.(card := GAP)
  const ASKING := EMPTY_DB.(
    tasks := map[TASK := GAP_ROW], sessions := map[ID := WAITING], rounds := {ROUND},
    questions := map[ASKED := Question(Some(BusinessGoal), true, false)])
  const FILLED := ASKING.(tasks := map[TASK := ROW.(version := 2)])
  const REVERTED := ASKING.(tasks := map[TASK := GAP_ROW.(version := 3)])
  const GIVEN := AnswerId(ASKED, "c1")
  const ANSWER := Answer(1, false, "goal")
  const NOW_READY := Session(ID, TASK, ReadyForGo, 1, None, 7, 0)
  const STALE := REVERTED.(sessions := map[ID := NOW_READY], answers := map[GIVEN := ANSWER])

  const REPLY := Reply(1, "goal", 1.0)
  const ASK := AnswerAsk(Some(1), "c1", [REPLY], 0.5, true)
  const SEEN := AnswerReads(
    Some(WAITING), Some(ROUND), map[1 := ASKED], map[], Some(ROW.(version := 2)), [(Some(BusinessGoal), "goal")])
  const ANSWERING := Answers(TASK, [2, 2, 2, 2, 2, 2], ASK, SEEN, [GIVEN])

  lemma GapHasOne()
    ensures Gaps(GAP) == [BusinessGoal] && !Complete(GAP) && FULL != GAP
  {
    hide Blank, Gaps, Complete;
    TextsAreFilled();
    BlankIsMissing();
    GapsOfFour(GAP);
    GapsMean(GAP);
  }

  lemma BlankIsMissing()
    ensures Missing(GAP, BusinessGoal) && FULL.fields[BusinessGoal] != GAP.fields[BusinessGoal]
  {
    TextsAreFilled();
  }

  const ASKING_WRITES := Nothing(TASK).(
    task := Added(GAP_ROW), session := Added(WAITING), round := Some(ROUND),
    questions := map[ASKED := Question(Some(BusinessGoal), true, false)])

  lemma AskingWrites()
    ensures IntakeWrites(TASK, IntakeOf(GAP, 0, None, None).form, 0, None, None) == ASKING_WRITES
  {
    GapHasOne();
    OneQuestion(ROUND);
    hide Gaps, QuestionsFor;
  }

  lemma AskingFits(cfg: Config)
    ensures Fits(cfg, EMPTY_DB, ASKING_WRITES) && Apply(EMPTY_DB, ASKING_WRITES) == ASKING
  {
    assert Apply(EMPTY_DB, ASKING_WRITES) == ASKING;
  }

  lemma AskingStep(cfg: Config)
    ensures Step(cfg, [EMPTY_DB], IntakeOf(GAP, 0, None, None), ASKING)
  {
    AskingWrites();
    AskingFits(cfg);
    hide Fits, Apply, IntakeWrites, ASKING_WRITES;
  }

  lemma OneQuestion(r: RoundId)
    ensures QuestionsFor(r, [BusinessGoal]) == map[QuestionId(r, 1) := Question(Some(BusinessGoal), true, false)]
  {
    QuestionsForMean(r, [BusinessGoal]);
  }

  /** An intake of the waiting task writes the card and nothing else. */
  lemma CardStep(cfg: Config, history: seq<Db>, db: Db, card: Card, read: TaskRow)
    requires |history| >= 2 && Last(history) == db && db == ASKING.(tasks := map[TASK := read])
    requires read == GAP_ROW.(card := read.card, version := read.version) && read.card != card
    ensures
      Step(cfg, history, IntakeOf(card, |history| - 1, Some(read), Some(WAITING)),
           db.(tasks := map[TASK := read.(card := card, version := read.version + 1)]))
  {
    hide Fits, Apply, FULL, GAP, Gaps;
    CardFits(cfg, db, card, read);
    var w := Nothing(TASK).(task := Changed(read.version, read.(card := card, version := read.version + 1)));
    var form := IntakeOf(card, |history| - 1, Some(read), Some(WAITING)).form;
    assert IntakeWrites(TASK, form, 0, Some(read), Some(WAITING)) == w;
  }

  lemma CardFits(cfg: Config, db: Db, card: Card, read: TaskRow)
    requires db == ASKING.(tasks := map[TASK := read])
    ensures
      var w := Nothing(TASK).(task := Changed(read.version, read.(card := card, version := read.version + 1)));
      Fits(cfg, db, w) && Apply(db, w) == db.(tasks := map[TASK := read.(card := card, version := read.version + 1)])
  {
    hide FULL, GAP;
    var w := Nothing(TASK).(task := Changed(read.version, read.(card := card, version := read.version + 1)));
    NothingSuperseded(db.answers);
    NothingSent(db.outbox);
    assert Apply(db, w) == db.(tasks := map[TASK := read.(card := card, version := read.version + 1)]);
  }

  const ANSWERING_WRITES := Nothing(TASK).(answers := map[GIVEN := ANSWER], session := Changed(4, NOW_READY))

  /** One confident reply to the one question of a round, which had none. */
  lemma OneReply(q: QuestionId, comment: string, text: string)
    ensures GoodReplies([Reply(1, text, 1.0)], map[1 := q], 0.5) == [Good(q, text)]
    ensures NewAnswers(comment, [Good(q, text)], map[]) == map[AnswerId(q, comment) := Answer(1, false, text)]
    ensures Replaced([Good(q, text)], map[]) == {}
  {
    var replies, good := [Reply(1, text, 1.0)], [Good(q, text)];
    assert replies[..0] == [] && good[..0] == [];
    assert GoodReplies([], map[1 := q], 0.5) == [];
    assert NewAnswers(comment, [], map[]) == map[];
  }

  /** The answer is the value the card already has. */
  lemma NothingMerged()
    ensures Merged(FULL, [(Some(BusinessGoal), "goal")]) == FULL
  {
    assert [(Some(BusinessGoal), "goal")][..0] == [];
    assert FULL.fields[BusinessGoal := Text("goal")] == FULL.fields;
  }

  lemma AnsweringWrites(cfg: Config)
    ensures AnswerWrites(cfg, TASK, ASK, SEEN) == Some(ANSWERING_WRITES)
  {
    OneReply(ASKED, "c1", "goal");
    NothingMerged();
    FullHasNoGaps();
    hide GoodReplies, NewAnswers, Replaced, Merged, Gaps, QuestionsFor;
  }

  lemma AnsweringFits(cfg: Config)
    ensures Fits(cfg, REVERTED, ANSWERING_WRITES) && Apply(REVERTED, ANSWERING_WRITES) == STALE
  {
    hide FULL, GAP;
    NothingSuperseded(REVERTED.answers);
    NothingSent(REVERTED.outbox);
    assert Apply(REVERTED, ANSWERING_WRITES) == STALE;
  }

  lemma AnsweringReads()
    ensures ByOrdinal(FILLED, ROUND) == map[1 := ASKED]
    ensures ReadsActive(FILLED, TASK, Some(WAITING))
    ensures ReadsActiveAnswer(FILLED, ASKED, map[])
    ensures ListsAccepted(FILLED, map[GIVEN := ANSWER], {}, ID, [GIVEN], [(Some(BusinessGoal), "goal")])
  {
    assert ASKED in FILLED.questions && ASKED.round == ROUND && ASKED.ordinal == 1;
  }

  lemma AnsweringStep(cfg: Config)
    ensures Step(cfg, [EMPTY_DB, ASKING, FILLED, REVERTED], ANSWERING, STALE)
  {
    AnsweringWrites(cfg);
    AnsweringFits(cfg);
    OneReply(ASKED, "c1", "goal");
    AnsweringReads();
    hide Fits, Apply, AnswerWrites, GoodReplies, NewAnswers, Replaced;
    hide ByOrdinal, ReadsActive, ReadsActiveAnswer, ListsAccepted;
    assert AnswersLegal([EMPTY_DB, ASKING, FILLED, REVERTED], ANSWERING);
  }

  const FIRST := IntakeOf(GAP, 0, None, None)
  const SECOND := IntakeOf(FULL, 1, Some(GAP_ROW), Some(WAITING))
  const THIRD := IntakeOf(GAP, 2, Some(ROW.(version := 2)), Some(WAITING))

  lemma ThreeIntakes(cfg: Config)
    ensures Run(cfg, [EMPTY_DB, ASKING, FILLED, REVERTED], [FIRST, SECOND, THIRD])
  {
    hide Run, Step, FULL, GAP;
    GapHasOne();
    EmptyRun(cfg);
    AskingStep(cfg);
    RunExtends(cfg, [EMPTY_DB], [], FIRST, ASKING);
    assert [EMPTY_DB] + [ASKING] == [EMPTY_DB, ASKING] && [] + [FIRST] == [FIRST];
    CardStep(cfg, [EMPTY_DB, ASKING], ASKING, FULL, GAP_ROW);
    RunExtends(cfg, [EMPTY_DB, ASKING], [FIRST], SECOND, FILLED);
    assert [EMPTY_DB, ASKING] + [FILLED] == [EMPTY_DB, ASKING, FILLED] && [FIRST] + [SECOND] == [FIRST, SECOND];
    CardStep(cfg, [EMPTY_DB, ASKING, FILLED], FILLED, GAP, ROW.(version := 2));
    RunExtends(cfg, [EMPTY_DB, ASKING, FILLED], [FIRST, SECOND], THIRD, REVERTED);
    assert [EMPTY_DB, ASKING, FILLED] + [REVERTED] == [EMPTY_DB, ASKING, FILLED, REVERTED];
    assert [FIRST, SECOND] + [THIRD] == [FIRST, SECOND, THIRD];
  }

  /** With every guard on, a session becomes ready for /go over a stored card with a gap. */
  lemma ReadyOverStaleCard(cfg: Config) returns (history: seq<Db>, log: seq<Txn>)
    ensures Run(cfg, history, log) && |log| == 4 && |history| == 5
    ensures !IsReady(history[3], TASK) && IsReady(history[4], TASK)
    ensures TASK in history[4].tasks && !Complete(history[4].tasks[TASK].card)
  {
    hide Run, Step;
    history, log := [EMPTY_DB, ASKING, FILLED, REVERTED], [FIRST, SECOND, THIRD];
    ThreeIntakes(cfg);
    AnsweringStep(cfg);
    RunExtends(cfg, history, log, ANSWERING, STALE);
    history, log := history + [STALE], log + [ANSWERING];
    GapHasOne();
  }

  lemma EmptyRun(cfg: Config)
    ensures Run(cfg, [EMPTY_DB], [])
  {
  }
}
