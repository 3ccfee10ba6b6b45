/** The run in which the listing order of accepted answers decides: a field is answered with a blank reply, asked
    again and answered, and the one step that follows makes the task ready or opens a third round
    (app/briefing_store.py:196-206, app/orchestrator.py:471-498). */
module BriefingOrder {
  import opened Wrappers
  import opened Contracts
  import opened BriefingFsm
  import opened Ids
  import opened BriefingSchema
  import opened Briefing
  import opened BriefingRuns
  import opened BriefingInvariant
  import opened BriefingSafety
  import opened BriefingAnswers
  import opened BriefingLimits

  const QUESTION := Question(Some(BusinessGoal), true, false)
  const BLANK := Answer(1, false, "")
  const GOAL := Answer(1, false, "goal")
  const ROUND_2 := RoundId(ID, 2)
  const ROUND_3 := RoundId(ID, 3)
  const ASKED_2 := QuestionId(ROUND_2, 1)
  const ASKED_3 := QuestionId(ROUND_3, 1)
  const GIVEN_2 := AnswerId(ASKED_2, "c2")

  // The blank reply, and the second round.

  const WAITING_2 := Session(ID, TASK, WaitingAnswers, 2, Some(ROUND_2), 9, 0)
  const ASKED_AGAIN := ASKING.(
    sessions := map[ID := WAITING_2], rounds := {ROUND, ROUND_2},
    questions := map[ASKED := QUESTION, ASKED_2 := QUESTION], answers := map[GIVEN := BLANK])
  const BLANK_ASK := AnswerAsk(Some(1), "c1", [Reply(1, "", 1.0)], 0.5, true)
  const BLANK_SEEN := AnswerReads(
    Some(WAITING), Some(ROUND), map[1 := ASKED], map[], Some(GAP_ROW), [(Some(BusinessGoal), "")])
  const BLANKLY := Answers(TASK, [1, 1, 1, 1, 1, 1], BLANK_ASK, BLANK_SEEN, [GIVEN])
  const BLANK_WRITES := Nothing(TASK).(
    answers := map[GIVEN := BLANK], session := Changed(4, WAITING_2), round := Some(ROUND_2),
    questions := map[ASKED_2 := QUESTION])

  // The answer, and its two outcomes.

  const FORTH: seq<Entry> := [(Some(BusinessGoal), ""), (Some(BusinessGoal), "goal")]
  const BACK: seq<Entry> := [(Some(BusinessGoal), "goal"), (Some(BusinessGoal), "")]
  const GOAL_ASK := AnswerAsk(Some(2), "c2", [Reply(1, "goal", 1.0)], 0.5, true)
  const READY_2 := Session(ID, TASK, ReadyForGo, 2, None, 12, 0)
  const WAITING_3 := Session(ID, TASK, WaitingAnswers, 3, Some(ROUND_3), 14, 0)
  const ANSWERED := ASKED_AGAIN.(answers := map[GIVEN := BLANK, GIVEN_2 := GOAL])
  const NOW_COMPLETE := ANSWERED.(tasks := map[TASK := ROW.(version := 2)], sessions := map[ID := READY_2])
  const THIRD_ROUND := ANSWERED.(
    sessions := map[ID := WAITING_3], rounds := {ROUND, ROUND_2, ROUND_3},
    questions := map[ASKED := QUESTION, ASKED_2 := QUESTION, ASKED_3 := QUESTION])

  function GoalSeen(accepted: seq<Entry>): AnswerReads {
    AnswerReads(Some(WAITING_2), Some(ROUND_2), map[1 := ASKED_2], map[], Some(GAP_ROW), accepted)
  }

  function Answering(order: seq<AnswerId>, accepted: seq<Entry>): Txn {
    Answers(TASK, [2, 2, 2, 2, 2, 2], GOAL_ASK, GoalSeen(accepted), order)
  }

  const FORTH_WRITES := Nothing(TASK).(
    task := Changed(1, ROW.(version := 2)), session := Changed(9, READY_2), answers := map[GIVEN_2 := GOAL])
  const BACK_WRITES := Nothing(TASK).(
    session := Changed(9, WAITING_3), answers := map[GIVEN_2 := GOAL], round := Some(ROUND_3),
    questions := map[ASKED_3 := QUESTION])

  /** The last entry counts. */
  lemma LastCounts(accepted: seq<Entry>)
    requires accepted != [] && forall e :: e in accepted ==> e.0 == Some(BusinessGoal)
    ensures Merged(GAP, accepted) == GAP.(fields := GAP.fields[BusinessGoal := Text(Last(accepted).1)])
  {
    hide GAP;
    var fields, wanted := Merged(GAP, accepted).fields, GAP.fields[BusinessGoal := Text(Last(accepted).1)];
    forall f
      ensures f in fields <==> f in wanted
      ensures f in fields ==> fields[f] == wanted[f]
    {
      MergedMeans(GAP, accepted, f);
      LastAnswerIsListed(accepted, f);
    }
    MergedMeans(GAP, accepted, BusinessGoal);
    assert fields.Keys == wanted.Keys;
  }

  lemma MergedTexts(accepted: seq<Entry>)
    requires accepted != [] && forall e :: e in accepted ==> e.0 == Some(BusinessGoal)
    ensures Last(accepted).1 == "" ==> Merged(GAP, accepted) == GAP
    ensures Last(accepted).1 == "goal" ==> Merged(GAP, accepted) == FULL
  {
    LastCounts(accepted);
    hide Merged;
    assert GAP.fields[BusinessGoal := Text("")] == GAP.fields;
    assert GAP.fields[BusinessGoal := Text("goal")] == FULL.fields;
  }

  lemma BlankWrites(cfg: Config)
    requires cfg.maxRounds >= 2
    ensures AnswerWrites(cfg, TASK, BLANK_ASK, BLANK_SEEN) == Some(BLANK_WRITES)
  {
    hide FULL, GAP, GoodReplies, NewAnswers, Replaced, Merged, Gaps, QuestionsFor;
    OneReply(ASKED, "c1", "");
    MergedTexts([(Some(BusinessGoal), "")]);
    GapHasOne();
    OneQuestion(ROUND_2);
  }

  lemma ForthWrites(cfg: Config)
    ensures AnswerWrites(cfg, TASK, GOAL_ASK, GoalSeen(FORTH)) == Some(FORTH_WRITES)
  {
    hide FULL, GAP, GoodReplies, NewAnswers, Replaced, Merged, Gaps, QuestionsFor;
    OneReply(ASKED_2, "c2", "goal");
    MergedTexts(FORTH);
    GapHasOne();
    FullHasNoGaps();
  }

  lemma BackWrites(cfg: Config)
    requires cfg.maxRounds >= 3
    ensures AnswerWrites(cfg, TASK, GOAL_ASK, GoalSeen(BACK)) == Some(BACK_WRITES)
  {
    hide FULL, GAP, GoodReplies, NewAnswers, Replaced, Merged, Gaps, QuestionsFor;
    OneReply(ASKED_2, "c2", "goal");
    MergedTexts(BACK);
    GapHasOne();
    OneQuestion(ROUND_3);
  }

  /** What the database checks of a state. */
  ghost predicate Sound(db: Db) {
    ForeignKeys(db) && OneActiveSession(db) && OneActiveAnswer(db) && OneAuthorizedGo(db)
  }

  lemma AgainIsSound()
    ensures Sound(ASKED_AGAIN)
  {
    hide FULL, GAP;
  }

  lemma BlankApplies()
    ensures Apply(ASKING, BLANK_WRITES) == ASKED_AGAIN
  {
    hide FULL, GAP;
    NothingSuperseded(ASKING.answers);
    NothingSent(ASKING.outbox);
    assert ASKING.answers + map[GIVEN := BLANK] == ASKED_AGAIN.answers;
    assert ASKING.questions + map[ASKED_2 := QUESTION] == ASKED_AGAIN.questions;
    hide Superseded, MarkedSent;
  }

  lemma BlankFits(cfg: Config)
    ensures Apply(ASKING, BLANK_WRITES) == ASKED_AGAIN && Fits(cfg, ASKING, BLANK_WRITES)
  {
    hide FULL, GAP, Apply, ForeignKeys, OneActiveSession, OneActiveAnswer, OneAuthorizedGo;
    BlankApplies();
    AgainIsSound();
  }

  lemma ForthApplies()
    ensures Apply(ASKED_AGAIN, FORTH_WRITES) == NOW_COMPLETE
  {
    hide FULL, GAP;
    NothingSuperseded(ASKED_AGAIN.answers);
    NothingSent(ASKED_AGAIN.outbox);
    assert ASKED_AGAIN.answers + map[GIVEN_2 := GOAL] == ANSWERED.answers;
    assert ASKED_AGAIN.questions + map[] == ASKED_AGAIN.questions;
    hide Superseded, MarkedSent;
  }

  lemma BackApplies()
    ensures Apply(ASKED_AGAIN, BACK_WRITES) == THIRD_ROUND
  {
    hide FULL, GAP;
    NothingSuperseded(ASKED_AGAIN.answers);
    NothingSent(ASKED_AGAIN.outbox);
    assert ASKED_AGAIN.answers + map[GIVEN_2 := GOAL] == ANSWERED.answers;
    assert ASKED_AGAIN.questions + map[ASKED_3 := QUESTION] == THIRD_ROUND.questions;
    hide Superseded, MarkedSent;
  }

  lemma CompleteIsSound()
    ensures Sound(NOW_COMPLETE)
  {
    hide FULL, GAP;
  }

  lemma ThirdIsSound()
    ensures Sound(THIRD_ROUND)
  {
    hide FULL, GAP;
  }

  lemma ForthFits(cfg: Config)
    ensures Apply(ASKED_AGAIN, FORTH_WRITES) == NOW_COMPLETE && Fits(cfg, ASKED_AGAIN, FORTH_WRITES)
  {
    hide FULL, GAP, Apply, ForeignKeys, OneActiveSession, OneActiveAnswer, OneAuthorizedGo;
    ForthApplies();
    CompleteIsSound();
  }

  lemma BackFits(cfg: Config)
    ensures Apply(ASKED_AGAIN, BACK_WRITES) == THIRD_ROUND && Fits(cfg, ASKED_AGAIN, BACK_WRITES)
  {
    hide FULL, GAP, Apply, ForeignKeys, OneActiveSession, OneActiveAnswer, OneAuthorizedGo;
    BackApplies();
    ThirdIsSound();
  }

  lemma BlankReads()
    ensures ByOrdinal(ASKING, ROUND) == map[1 := ASKED]
    ensures ReadsActive(ASKING, TASK, Some(WAITING)) && ReadsActiveAnswer(ASKING, ASKED, map[])
    ensures ListsAccepted(ASKING, map[GIVEN := BLANK], {}, ID, [GIVEN], [(Some(BusinessGoal), "")])
  {
    assert ASKED in ASKING.questions && ASKED.round == ROUND && ASKED.ordinal == 1;
  }

  lemma GoalReads()
    ensures ByOrdinal(ASKED_AGAIN, ROUND_2) == map[1 := ASKED_2]
    ensures ReadsActive(ASKED_AGAIN, TASK, Some(WAITING_2)) && ReadsActiveAnswer(ASKED_AGAIN, ASKED_2, map[])
  {
    hide FULL, GAP;
    assert ASKED_2 in ASKED_AGAIN.questions && ASKED_2.round == ROUND_2 && ASKED_2.ordinal == 1;
    assert ASKED.round != ROUND_2;
  }

  lemma ForthIsListed()
    ensures ListsAccepted(ASKED_AGAIN, map[GIVEN_2 := GOAL], {}, ID, [GIVEN, GIVEN_2], FORTH)
  {
    hide FULL, GAP;
  }

  lemma BackIsListed()
    ensures ListsAccepted(ASKED_AGAIN, map[GIVEN_2 := GOAL], {}, ID, [GIVEN_2, GIVEN], BACK)
  {
    hide FULL, GAP;
  }

  lemma BlankStep(cfg: Config)
    requires cfg.maxRounds >= 2
    ensures Step(cfg, [EMPTY_DB, ASKING], BLANKLY, ASKED_AGAIN)
  {
    hide Fits, Apply, AnswerWrites, GoodReplies, NewAnswers, Replaced, FULL, GAP;
    hide ByOrdinal, ReadsActive, ReadsActiveAnswer, ListsAccepted;
    BlankWrites(cfg);
    BlankFits(cfg);
    OneReply(ASKED, "c1", "");
    BlankReads();
    assert AnswersLegal([EMPTY_DB, ASKING], BLANKLY);
  }

  lemma GoalStep(cfg: Config, order: seq<AnswerId>, accepted: seq<Entry>, w: Writes, next: Db)
    requires AnswerWrites(cfg, TASK, GOAL_ASK, GoalSeen(accepted)) == Some(w)
    requires Apply(ASKED_AGAIN, w) == next && Fits(cfg, ASKED_AGAIN, w)
    requires ListsAccepted(ASKED_AGAIN, map[GIVEN_2 := GOAL], {}, ID, order, accepted)
    ensures Step(cfg, [EMPTY_DB, ASKING, ASKED_AGAIN], Answering(order, accepted), next)
  {
    hide Fits, Apply, AnswerWrites, GoodReplies, NewAnswers, Replaced, FULL, GAP;
    hide ByOrdinal, ReadsActive, ReadsActiveAnswer, ListsAccepted;
    OneReply(ASKED_2, "c2", "goal");
    GoalReads();
    assert AnswersLegal([EMPTY_DB, ASKING, ASKED_AGAIN], Answering(order, accepted));
  }

  lemma AskedAgainRun(cfg: Config)
    requires cfg.maxRounds >= 2
    ensures Run(cfg, [EMPTY_DB, ASKING, ASKED_AGAIN], [FIRST, BLANKLY])
  {
    hide Run, Step, FULL, GAP;
    EmptyRun(cfg);
    AskingStep(cfg);
    RunExtends(cfg, [EMPTY_DB], [], FIRST, ASKING);
    assert [EMPTY_DB] + [ASKING] == [EMPTY_DB, ASKING] && [] + [FIRST] == [FIRST];
    BlankStep(cfg);
    RunExtends(cfg, [EMPTY_DB, ASKING], [FIRST], BLANKLY, ASKED_AGAIN);
    assert [EMPTY_DB, ASKING] + [ASKED_AGAIN] == [EMPTY_DB, ASKING, ASKED_AGAIN];
    assert [FIRST] + [BLANKLY] == [FIRST, BLANKLY];
  }

  lemma ForthRun(cfg: Config)
    requires cfg.maxRounds >= 2
    ensures Run(cfg, [EMPTY_DB, ASKING, ASKED_AGAIN] + [NOW_COMPLETE],
                [FIRST, BLANKLY] + [Answering([GIVEN, GIVEN_2], FORTH)])
  {
    hide Run, Step, FULL, GAP, Fits, Apply, AnswerWrites, ListsAccepted, FORTH, FORTH_WRITES, NOW_COMPLETE, ASKED_AGAIN;
    AskedAgainRun(cfg);
    ForthIsListed();
    ForthWrites(cfg);
    ForthFits(cfg);
    GoalStep(cfg, [GIVEN, GIVEN_2], FORTH, FORTH_WRITES, NOW_COMPLETE);
    var t := Answering([GIVEN, GIVEN_2], FORTH);
    RunExtends(cfg, [EMPTY_DB, ASKING, ASKED_AGAIN], [FIRST, BLANKLY], t, NOW_COMPLETE);
  }

  lemma BackRun(cfg: Config)
    requires cfg.maxRounds >= 3
    ensures Run(cfg, [EMPTY_DB, ASKING, ASKED_AGAIN] + [THIRD_ROUND],
                [FIRST, BLANKLY] + [Answering([GIVEN_2, GIVEN], BACK)])
  {
    hide Run, Step, FULL, GAP, Fits, Apply, AnswerWrites, ListsAccepted, BACK, BACK_WRITES, THIRD_ROUND, ASKED_AGAIN;
    AskedAgainRun(cfg);
    BackIsListed();
    BackWrites(cfg);
    BackFits(cfg);
    GoalStep(cfg, [GIVEN_2, GIVEN], BACK, BACK_WRITES, THIRD_ROUND);
    var t := Answering([GIVEN_2, GIVEN], BACK);
    RunExtends(cfg, [EMPTY_DB, ASKING, ASKED_AGAIN], [FIRST, BLANKLY], t, THIRD_ROUND);
  }

  /** After one blank reply and one good one, the same transaction makes the task ready or asks a third time: only the
      order in which the database lists the two answers differs. */
  lemma OrderDecides(cfg: Config) returns (history: seq<Db>, log: seq<Txn>)
    requires cfg.maxRounds >= 3
    ensures Run(cfg, history + [NOW_COMPLETE], log + [Answering([GIVEN, GIVEN_2], FORTH)])
    ensures Run(cfg, history + [THIRD_ROUND], log + [Answering([GIVEN_2, GIVEN], BACK)])
    ensures SameEntries(FORTH, BACK) && !Undisputed(FORTH)
    ensures IsReady(NOW_COMPLETE, TASK) && IsActive(THIRD_ROUND, ROUND_3)
  {
    hide Run, FULL, GAP, Answering, BLANKLY, FIRST, ASKING;
    history, log := [EMPTY_DB, ASKING, ASKED_AGAIN], [FIRST, BLANKLY];
    ForthRun(cfg);
    BackRun(cfg);
    TextsAreFilled();
    assert FORTH[0] in FORTH && FORTH[1] in FORTH && FORTH[0] != FORTH[1];
  }
}
