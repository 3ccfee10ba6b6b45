/** Does it matter that accepted answers are listed without an order (app/briefing_store.py:196-206)? Only for a
    field with two different accepted answers, and over all runs a field is asked again only if it was never
    answered or answered with a blank reply. */
module BriefingAnswers {
  import opened Wrappers
  import opened Contracts
  import opened BriefingFsm
  import opened Ids
  import opened GoAuthorizer
  import opened BriefingSchema
  import opened Briefing
  import opened BriefingRuns
  import opened BriefingInvariant
  import opened BriefingSafety

  // ---- When the listing order decides ----

  type Entry = (Option<Field>, string)

  ghost predicate SameEntries(a: seq<Entry>, b: seq<Entry>) { multiset(a) == multiset(b) }

  /** No field has two different answers. */
  ghost predicate Undisputed(accepted: seq<Entry>) {
    forall x, y :: x in accepted && y in accepted && x.0.Some? && x.0 == y.0 ==> x == y
  }

  lemma {:induction false} LastAnswerIsListed(accepted: seq<Entry>, f: Field)
    ensures LastAnswer(accepted, f).Some? ==> (Some(f), LastAnswer(accepted, f).value) in accepted
    ensures LastAnswer(accepted, f).None? ==> forall e :: e in accepted ==> e.0 != Some(f)
  {
    if accepted != [] {
      LastAnswerIsListed(accepted[..|accepted| - 1], f);
      assert accepted == accepted[..|accepted| - 1] + [Last(accepted)];
    }
  }

  lemma SameCard(card: Card, a: seq<Entry>, b: seq<Entry>)
    requires forall f :: LastAnswer(a, f) == LastAnswer(b, f)
    ensures Merged(card, a) == Merged(card, b)
  {
    var x, y := Merged(card, a).fields, Merged(card, b).fields;
    forall f
      ensures f in x <==> f in y
      ensures f in x ==> x[f] == y[f]
    {
      MergedMeans(card, a, f);
      MergedMeans(card, b, f);
    }
    assert x.Keys == y.Keys;
    MergedMeans(card, a, TargetBranch);
    MergedMeans(card, b, TargetBranch);
  }

  lemma SameMembers(a: seq<Entry>, b: seq<Entry>, e: Entry)
    requires SameEntries(a, b)
    ensures e in a <==> e in b
  {
    assert e in multiset(a) <==> e in multiset(b);
  }

  function ToEnd(accepted: seq<Entry>, k: nat): seq<Entry>
    requires k < |accepted|
  {
    accepted[..k] + accepted[k + 1..] + [accepted[k]]
  }

  lemma ToEndCounts(card: Card, accepted: seq<Entry>, k: nat, f: Field)
    requires k < |accepted| && accepted[k].0 == Some(f)
    ensures SameEntries(ToEnd(accepted, k), accepted)
    ensures f in Merged(card, ToEnd(accepted, k)).fields
      && Merged(card, ToEnd(accepted, k)).fields[f] == Text(accepted[k].1)
  {
    assert accepted == accepted[..k] + [accepted[k]] + accepted[k + 1..];
    MergedMeans(card, ToEnd(accepted, k), f);
  }

  /** Every listing of the accepted answers gives the same card exactly if no field has two different ones. */
  lemma OrderDecidesIff(card: Card, accepted: seq<Entry>)
    ensures (forall other :: SameEntries(other, accepted) ==> Merged(card, other) == Merged(card, accepted))
      <==> Undisputed(accepted)
  {
    if Undisputed(accepted) {
      forall other | SameEntries(other, accepted)
        ensures Merged(card, other) == Merged(card, accepted)
      {
        forall f
          ensures LastAnswer(other, f) == LastAnswer(accepted, f)
        {
          LastAnswerIsListed(other, f);
          LastAnswerIsListed(accepted, f);
          if LastAnswer(other, f).Some? {
            SameMembers(other, accepted, (Some(f), LastAnswer(other, f).value));
          }
          if LastAnswer(accepted, f).Some? {
            SameMembers(other, accepted, (Some(f), LastAnswer(accepted, f).value));
          }
        }
        SameCard(card, other, accepted);
      }
    } else {
      var i, j :| 0 <= i < |accepted| && 0 <= j < |accepted|
                  && accepted[i].0.Some? && accepted[i].0 == accepted[j].0 && accepted[i] != accepted[j];
      ToEndCounts(card, accepted, i, accepted[i].0.value);
      ToEndCounts(card, accepted, j, accepted[i].0.value);
    }
  }

  // ---- Rows that stay ----

  /** New questions belong to the round their step opens. */
  lemma QuestionsWithRound(cfg: Config, t: Txn, w: Writes)
    requires WritesOf(cfg, t) == Some(w)
    ensures w.round.None? ==> w.questions == map[]
    ensures w.round.Some? ==>
      && (w.session.Added? || w.session.Changed?) && w.session.row.state == WaitingAnswers
      && w.session.row.activeRound == w.round && w.session.row.id == w.round.value.session
      && forall q :: q in w.questions ==> q.round == w.round.value
  {
    hide Gaps, Complete, Merged, NewAnswers, Replaced, GoodReplies, Matched, FirstOf;
    if w.round.Some? && Evaluated(t).Some? {
      QuestionsForMean(w.round.value, Gaps(Evaluated(t).value));
    }
  }

  lemma QuestionStep(cfg: Config, history: seq<Db>, log: seq<Txn>, i: nat, q: QuestionId)
    requires cfg.versions && Run(cfg, history, log) && i < |log|
    ensures q in history[i].questions ==>
      q in history[i + 1].questions && history[i + 1].questions[q] == history[i].questions[q]
    ensures q in history[i + 1].questions && q !in history[i].questions ==> q.round !in history[i].rounds
  {
    StepCommits(cfg, history, log, i);
    if history[i + 1] != history[i] {
      hide Run, GoodHistory, WritesOf, Legal, TaskFits, SessionFits, ForeignKeys;
      QuestionsWithRound(cfg, log[i], WritesOf(cfg, log[i]).value);
    }
  }

  /** Questions stay as they are, and a round gets none later. */
  lemma {:induction false} QuestionsStay(cfg: Config, history: seq<Db>, log: seq<Txn>, i: nat, n: nat, q: QuestionId)
    requires cfg.versions && Run(cfg, history, log) && i <= n < |history|
    ensures q in history[i].questions ==>
      q in history[n].questions && history[n].questions[q] == history[i].questions[q]
    ensures q in history[n].questions && q.round in history[i].rounds ==> q in history[i].questions
  {
    hide *;
    if i < n {
      RunStarts(cfg, history, log);
      QuestionsStay(cfg, history, log, i, n - 1, q);
      QuestionStep(cfg, history, log, n - 1, q);
      if q.round in history[i].rounds {
        RoundsStay(cfg, history, log, i, n - 1, q.round);
      }
    }
  }

  lemma RoundsStay(cfg: Config, history: seq<Db>, log: seq<Txn>, i: nat, n: nat, r: RoundId)
    requires cfg.versions && Run(cfg, history, log) && i <= n < |history| && r in history[i].rounds
    ensures r in history[n].rounds
  {
    RunIsGood(cfg, history, log);
    HistoryMeans(cfg, history, i, n);
  }

  lemma AnswersStay(cfg: Config, history: seq<Db>, log: seq<Txn>, i: nat, n: nat, a: AnswerId)
    requires cfg.versions && Run(cfg, history, log) && i <= n < |history| && a in history[i].answers
    ensures a in history[n].answers && history[n].answers[a] == history[i].answers[a]
  {
    RunIsGood(cfg, history, log);
    HistoryMeans(cfg, history, i, n);
  }

  /** The step that brought an answer. */
  lemma {:induction false} AnswerAppears(cfg: Config, history: seq<Db>, log: seq<Txn>, i: nat, n: nat, a: AnswerId)
    returns (j: nat)
    requires cfg.versions && Run(cfg, history, log) && i <= n < |history|
    requires a in history[n].answers && a !in history[i].answers
    ensures i <= j < n && |history| == |log| + 1
    ensures a in history[j + 1].answers && a !in history[j].answers && IsActive(history[j], a.question.round)
  {
    hide *;
    RunStarts(cfg, history, log);
    if a in history[n - 1].answers {
      j := AnswerAppears(cfg, history, log, i, n - 1, a);
    } else {
      j := n - 1;
      AnswersGoToActiveRound(cfg, history, log, j, a);
    }
  }

  /** The step that opened a round. */
  lemma {:induction false} RoundOpens(cfg: Config, history: seq<Db>, log: seq<Txn>, n: nat, r: RoundId)
    returns (i: nat)
    requires cfg.versions && Run(cfg, history, log) && n < |history| && r in history[n].rounds
    ensures i < n && |history| == |log| + 1 && IsActive(history[i + 1], r) && !IsActive(history[i], r)
    ensures r in history[i + 1].rounds
  {
    hide *;
    RunStarts(cfg, history, log);
    if n == 0 {
      NoRoundYet(r);
    } else if r in history[n - 1].rounds {
      i := RoundOpens(cfg, history, log, n - 1, r);
    } else {
      i := n - 1;
      NewRoundIsActive(cfg, history, log, i, r);
    }
  }

  lemma NoRoundYet(r: RoundId)
    ensures r !in EMPTY_DB.rounds
  {
  }

  lemma NewRoundIsActive(cfg: Config, history: seq<Db>, log: seq<Txn>, i: nat, r: RoundId)
    requires cfg.versions && Run(cfg, history, log) && i < |log|
    requires r in history[i + 1].rounds && r !in history[i].rounds
    ensures IsActive(history[i + 1], r) && !IsActive(history[i], r)
  {
    StepCommits(cfg, history, log, i);
    var w := WritesOf(cfg, log[i]).value;
    hide Run, GoodHistory, WritesOf, Legal, Fits, Superseded, MarkedSent;
    QuestionsWithRound(cfg, log[i], w);
    if IsActive(history[i], r) {
      SessionsKeepShape(cfg, history, log, i, r.session);
    }
  }

  // ---- What the list of accepted answers holds ----

  /** The session row does not change while an answer transaction that commits is at work. */
  lemma SessionHolds(cfg: Config, history: seq<Db>, log: seq<Txn>, m: nat, i: nat, j: nat, s: SessionId)
    requires cfg.versions && Run(cfg, history, log) && m <= j <= i < |history|
    requires s in history[m].sessions && s in history[i].sessions && history[m].sessions[s] == history[i].sessions[s]
    ensures s in history[j].sessions && history[j].sessions[s] == history[m].sessions[s]
  {
    RunIsGood(cfg, history, log);
    HistoryMeans(cfg, history, m, j);
    HistoryMeans(cfg, history, j, i);
    hide GoodHistory, Inv, Run;
    assert SessionGrows(history[m].sessions[s], history[j].sessions[s]);
    assert SessionGrows(history[j].sessions[s], history[i].sessions[s]);
  }

  /** Nor does the session get answers meanwhile. */
  lemma NoAnswerMeanwhile(cfg: Config, history: seq<Db>, log: seq<Txn>, m: nat, k: nat, i: nat, a: AnswerId)
    requires cfg.versions && Run(cfg, history, log) && m <= k <= i < |history| && a in history[i].answers
    requires
      var s := a.question.round.session;
      s in history[m].sessions && s in history[i].sessions && history[m].sessions[s] == history[i].sessions[s]
    ensures a in history[k].answers
  {
    if a !in history[k].answers {
      hide Run, IsActive;
      var j := AnswerAppears(cfg, history, log, k, i, a);
      SessionHolds(cfg, history, log, m, i, j, a.question.round.session);
      SessionHolds(cfg, history, log, m, i, j + 1, a.question.round.session);
      SameActive(history[j], history[j + 1], a.question.round);
      AnswersCloseTheirRound(cfg, history, log, j + 1, a);
    }
  }

  lemma SameActive(db: Db, db': Db, r: RoundId)
    requires r.session in db.sessions && r.session in db'.sessions && db.sessions[r.session] == db'.sessions[r.session]
    ensures IsActive(db, r) <==> IsActive(db', r)
  {
  }

  /** What a committed answer transaction has behind it. */
  lemma AnswersCommit(cfg: Config, history: seq<Db>, log: seq<Txn>, i: nat)
    requires cfg.versions && Run(cfg, history, log) && i < |log| && log[i].Answers? && history[i + 1] != history[i]
    ensures
      var t := log[i];
      && Listening(t.ask, t.seen) && WritesOf(cfg, t).Some?
      && history[i + 1] == Apply(history[i], WritesOf(cfg, t).value)
      && WritesOf(cfg, t).value.answers == NewAnswers(t.ask.comment, GoodOf(t), t.seen.active)
      && Replaced(GoodOf(t), t.seen.active) == {} && WritesOf(cfg, t).value.superseded == {}
      && WritesOf(cfg, t).value.session.Changed?
      && WritesOf(cfg, t).value.session.row.id == t.seen.session.value.id
      && |t.at| == 5 + |GoodOf(t)| && t.at[0] <= t.at[4 + |GoodOf(t)|] <= i
      && ListsAccepted(history[t.at[4 + |GoodOf(t)|]], WritesOf(cfg, t).value.answers, {}, t.seen.session.value.id,
                       t.order, t.seen.accepted)
      && var s := t.seen.session.value.id;
      && s in history[t.at[0]].sessions && s in history[i].sessions
      && history[t.at[0]].sessions[s] == history[i].sessions[s]
  {
    var t, before := log[i], history[..i + 1];
    StepCommits(cfg, history, log, i);
    var w := WritesOf(cfg, t).value;
    AnswersWrite(cfg, history[i], t, w);
    FitsSession(cfg, history[i], w);
    AnswersLook(before, t);
    hide Run, Inv, Apply, Fits, Legal, GoodReplies, NewAnswers, ListsAccepted, GoodHistory, WritesOf;
    ReadAtCommit(cfg, before, t.at[0], t.seen.session.value, w);
    assert IsActive(Last(before), t.seen.round.value);
    AnswersAreFirst(cfg, before, t);
    NoneReplaced(t.seen.session.value, GoodOf(t), t.seen.active);
  }

  /** What an answer transaction looked at. */
  lemma AnswersLook(history: seq<Db>, t: Txn)
    requires t.Answers? && Legal(history, t) && Listening(t.ask, t.seen)
    ensures |t.at| == 5 + |GoodOf(t)| && t.at[0] <= t.at[4 + |GoodOf(t)|] < |history|
    ensures t.seen.session.value.id in history[t.at[0]].sessions
      && history[t.at[0]].sessions[t.seen.session.value.id] == t.seen.session.value
    ensures t.seen.round.value.session == t.seen.session.value.id
    ensures
      ListsAccepted(history[t.at[4 + |GoodOf(t)|]], NewAnswers(t.ask.comment, GoodOf(t), t.seen.active),
                    Replaced(GoodOf(t), t.seen.active), t.seen.session.value.id, t.order, t.seen.accepted)
  {
    hide GoodReplies, ListsAccepted, ReadsActiveAnswer, NewAnswers, Replaced;
  }

  lemma FitsSession(cfg: Config, db: Db, w: Writes)
    requires Fits(cfg, db, w)
    ensures SessionFits(cfg, db, w)
  {
  }

  lemma NoneReplaced(s: Session, good: seq<Good>, active: map<QuestionId, (AnswerId, Answer)>)
    requires FirstTime(s, good, active)
    ensures Replaced(good, active) == {}
  {
  }

  lemma AnswersWrite(cfg: Config, db: Db, t: Txn, w: Writes)
    requires WritesOf(cfg, t) == Some(w) && t.Answers? && Apply(db, w) != db
    ensures Listening(t.ask, t.seen)
    ensures w.answers == NewAnswers(t.ask.comment, GoodOf(t), t.seen.active)
    ensures w.superseded == Replaced(GoodOf(t), t.seen.active)
    ensures w.session.Changed? && w.session.row.id == t.seen.session.value.id
      && w.session.read == t.seen.session.value.version
  {
    hide Gaps, Merged, QuestionsFor, NewAnswers, Replaced, GoodReplies, Apply;
    if w == Nothing(t.task) {
      ApplyNothing(db, t.task);
    }
  }

  /** An answer of this session to this field. */
  ghost predicate AnswersField(db: Db, a: AnswerId, s: SessionId, f: Field) {
    && a in db.answers && a.question.round.session == s
    && a.question in db.questions && db.questions[a.question].dimension == Some(f)
  }

  /** The transaction lists exactly the answers its session has once it is committed, its own among them. */
  lemma AcceptedAreAll(cfg: Config, history: seq<Db>, log: seq<Txn>, i: nat)
    requires cfg.versions && Run(cfg, history, log) && i < |log| && log[i].Answers? && history[i + 1] != history[i]
    ensures log[i].seen.session.Some? && |log[i].order| == |log[i].seen.accepted|
    ensures
      var t := log[i];
      && (forall a :: a in history[i + 1].answers && a.question.round.session == t.seen.session.value.id ==>
        a in t.order)
      && forall k :: 0 <= k < |t.order| ==>
        && t.order[k] in history[i + 1].answers && t.order[k].question in history[i + 1].questions
        && t.order[k].question.round.session == t.seen.session.value.id
        && t.seen.accepted[k] == (history[i + 1].questions[t.order[k].question].dimension,
                                  history[i + 1].answers[t.order[k]].text)
  {
    AnswersCommit(cfg, history, log, i);
    var t, m, own := log[i], log[i].at[4 + |GoodOf(log[i])|], WritesOf(cfg, log[i]).value.answers;
    var s := t.seen.session.value.id;
    hide Run, Apply, WritesOf, ListsAccepted, Listening;
    forall a | a in history[i + 1].answers && a.question.round.session == s
      ensures a in t.order
    {
      ListedIff(cfg, history, log, i, m, own, s, a);
    }
    forall k | 0 <= k < |t.order|
      ensures t.order[k] in history[i + 1].answers && t.order[k].question in history[i + 1].questions
      ensures t.order[k].question.round.session == s
      ensures t.seen.accepted[k] == (history[i + 1].questions[t.order[k].question].dimension,
                                     history[i + 1].answers[t.order[k]].text)
    {
      ListedAs(cfg, history, log, i, m, own, k);
    }
    ListedPairs(history[m], own, s, t.order, t.seen.accepted);
  }

  lemma ListedPairs(db: Db, own: map<AnswerId, Answer>, s: SessionId, order: seq<AnswerId>, accepted: seq<Entry>)
    requires ListsAccepted(db, own, {}, s, order, accepted)
    ensures |order| == |accepted|
  {
  }

  lemma ListedIff(cfg: Config, history: seq<Db>, log: seq<Txn>, i: nat, m: nat, own: map<AnswerId, Answer>,
                  s: SessionId, a: AnswerId)
    requires cfg.versions && Run(cfg, history, log) && i < |log| && log[i].Answers? && |log[i].at| > 0
    requires log[i].at[0] <= m <= i && WritesOf(cfg, log[i]).Some?
    requires history[i + 1] == Apply(history[i], WritesOf(cfg, log[i]).value)
      && own == WritesOf(cfg, log[i]).value.answers
    requires ListsAccepted(history[m], own, {}, s, log[i].order, log[i].seen.accepted)
    requires s in history[log[i].at[0]].sessions && s in history[i].sessions
      && history[log[i].at[0]].sessions[s] == history[i].sessions[s]
    requires a in history[i + 1].answers && a.question.round.session == s
    ensures a in log[i].order
  {
    hide Run, WritesOf;
    RunStarts(cfg, history, log);
    if a in history[i].answers {
      NoAnswerMeanwhile(cfg, history, log, log[i].at[0], m, i, a);
      OneAnswerForEver(cfg, history, log, m, m, a, a);
    } else {
      NewRowsWritten(history[i], WritesOf(cfg, log[i]).value, a);
    }
  }

  lemma ListedAs(cfg: Config, history: seq<Db>, log: seq<Txn>, i: nat, m: nat, own: map<AnswerId, Answer>, k: nat)
    requires cfg.versions && Run(cfg, history, log) && i < |log| && log[i].Answers? && log[i].seen.session.Some?
    requires m <= i && WritesOf(cfg, log[i]).Some? && history[i + 1] == Apply(history[i], WritesOf(cfg, log[i]).value)
    requires own == WritesOf(cfg, log[i]).value.answers
      && own == NewAnswers(log[i].ask.comment, GoodOf(log[i]), log[i].seen.active)
    requires var t := log[i]; ListsAccepted(history[m], own, {}, t.seen.session.value.id, t.order, t.seen.accepted)
    requires k < |log[i].order| && history[i + 1] != history[i]
    ensures
      var t, a := log[i], log[i].order[k];
      && a in history[i + 1].answers && a.question in history[i + 1].questions
      && a.question.round.session == t.seen.session.value.id
      && k < |t.seen.accepted|
      && t.seen.accepted[k] == (history[i + 1].questions[a.question].dimension, history[i + 1].answers[a].text)
  {
    var t, a := log[i], log[i].order[k];
    assert a in t.order;
    hide Run, WritesOf, NewAnswers;
    QuestionsStay(cfg, history, log, m, i + 1, a.question);
    if a in own {
      OwnAnswer(cfg, history, log, i, a);
    } else {
      AnswersStay(cfg, history, log, m, i + 1, a);
    }
  }

  lemma OwnAnswer(cfg: Config, history: seq<Db>, log: seq<Txn>, i: nat, a: AnswerId)
    requires cfg.versions && Run(cfg, history, log) && i < |log| && log[i].Answers? && history[i + 1] != history[i]
    requires WritesOf(cfg, log[i]).Some? && a in WritesOf(cfg, log[i]).value.answers
    ensures a in history[i + 1].answers && history[i + 1].answers[a] == WritesOf(cfg, log[i]).value.answers[a]
    ensures log[i].seen.session.Some? && a.question.round.session == log[i].seen.session.value.id
  {
    var t, before := log[i], history[..i + 1];
    var w := WritesOf(cfg, t).value;
    StepCommits(cfg, history, log, i);
    WhoAnswers(cfg, t, w);
    NewAnswersMean(t.ask.comment, GoodOf(t), t.seen.active);
    var k :| 0 <= k < |GoodOf(t)| && GoodOf(t)[k].question == a.question;
    RepliesLookedUp(before, t, k);
    AnswersLook(before, t);
    hide Run, WritesOf, GoodHistory, Fits, Legal, GoodReplies, NewAnswers, Superseded;
  }

  // ---- Fields that are asked again ----

  ghost predicate Unanswered(db: Db, s: SessionId, f: Field) {
    forall a :: a in db.answers ==> !AnswersField(db, a, s, f)
  }

  ghost predicate HasBlank(db: Db, s: SessionId, f: Field) {
    exists a :: AnswersField(db, a, s, f) && Blank(db.answers[a].text)
  }

  lemma {:induction false} GapIsMissing(card: Card, fields: seq<Field>, f: Field)
    requires f in MissingOf(card, fields)
    ensures Missing(card, f)
  {
    if f != Last(fields) || !Missing(card, f) {
      GapIsMissing(card, fields[..|fields| - 1], f);
    }
  }

  /** A field missing from the merged card has no accepted answer or a blank last one. */
  lemma MissingMeansBlank(card: Card, accepted: seq<Entry>, f: Field)
    requires Missing(Merged(card, accepted), f)
    ensures (forall e :: e in accepted ==> e.0 != Some(f)) || exists text :: (Some(f), text) in accepted && Blank(text)
  {
    MergedMeans(card, accepted, f);
    LastAnswerIsListed(accepted, f);
  }

  /** An intake that opens a round adds its session. */
  lemma IntakeIsFirst(cfg: Config, history: seq<Db>, log: seq<Txn>, i: nat, r: RoundId)
    requires cfg.versions && Run(cfg, history, log) && i < |log| && log[i].Intake?
    requires IsActive(history[i + 1], r) && !IsActive(history[i], r)
    ensures r.session !in history[i].sessions
  {
    StepCommits(cfg, history, log, i);
    var w := WritesOf(cfg, log[i]).value;
    hide Run, WritesOf, Fits, Legal, GoodHistory, Apply;
    RoundIsNew(cfg, history, log, i, r);
    IntakeAdds(cfg, history[..i + 1], log[i], w);
    FitsSession(cfg, history[i], w);
    QuestionsWithRound(cfg, log[i], w);
    WaitingWrites(cfg, log[i], w);
  }

  /** The first round of a session, opened by its intake, comes before any answer. */
  lemma NoAnswerBeforeIntake(cfg: Config, history: seq<Db>, log: seq<Txn>, i: nat, r: RoundId, f: Field)
    requires cfg.versions && Run(cfg, history, log) && i < |log| && log[i].Intake?
    requires IsActive(history[i + 1], r) && !IsActive(history[i], r)
    ensures Unanswered(history[i + 1], r.session, f)
  {
    hide Run, IsActive, AnswersField, Unanswered;
    RunStarts(cfg, history, log);
    IntakeIsFirst(cfg, history, log, i, r);
    forall a | a in history[i + 1].answers
      ensures a.question.round.session != r.session
    {
      if a in history[i].answers {
        AnswersCloseTheirRound(cfg, history, log, i, a);
        RoundHasSession(cfg, history, log, i, a.question.round);
      } else {
        AnswersGoToActiveRound(cfg, history, log, i, a);
      }
    }
    NoneOfSession(history[i + 1], r.session, f);
  }

  lemma NoneOfSession(db: Db, s: SessionId, f: Field)
    requires forall a :: a in db.answers ==> a.question.round.session != s
    ensures Unanswered(db, s, f)
  {
  }

  lemma RoundHasSession(cfg: Config, history: seq<Db>, log: seq<Txn>, i: nat, r: RoundId)
    requires cfg.versions && Run(cfg, history, log) && i < |history| && r in history[i].rounds
    ensures r.session in history[i].sessions
  {
    RunIsGood(cfg, history, log);
    HistoryMeans(cfg, history, i, i);
  }

  /** A round asks for a field only if the session has no accepted answer to it, or a blank one. */
  lemma AskedAgain(cfg: Config, history: seq<Db>, log: seq<Txn>, i: nat, q: QuestionId, f: Field)
    requires cfg.versions && Run(cfg, history, log) && i < |log|
    requires IsActive(history[i + 1], q.round) && !IsActive(history[i], q.round)
    requires q in history[i + 1].questions && history[i + 1].questions[q].dimension == Some(f)
    ensures Unanswered(history[i + 1], q.round.session, f) || HasBlank(history[i + 1], q.round.session, f)
  {
    hide Run, IsActive, Unanswered, HasBlank;
    RunStarts(cfg, history, log);
    OpenedRoundAsksGaps(cfg, history, log, i, q.round);
    var card := Evaluated(log[i]).value;
    assert f in Gaps(card);
    GapIsMissing(card, RequiredFields(card.taskType), f);
    if log[i].Intake? {
      NoAnswerBeforeIntake(cfg, history, log, i, q.round, f);
    } else {
      AskedByAnswers(cfg, history, log, i, q.round, f);
    }
  }

  lemma AskedByAnswers(cfg: Config, history: seq<Db>, log: seq<Txn>, i: nat, r: RoundId, f: Field)
    requires cfg.versions && Run(cfg, history, log) && i < |log| && log[i].Answers?
    requires IsActive(history[i + 1], r) && !IsActive(history[i], r)
    requires Evaluated(log[i]).Some? && Missing(Evaluated(log[i]).value, f)
    ensures Unanswered(history[i + 1], r.session, f) || HasBlank(history[i + 1], r.session, f)
  {
    hide Run, IsActive, Missing, Merged;
    RunStarts(cfg, history, log);
    var t := log[i];
    RoundIsOfSession(cfg, history, log, i, r);
    AcceptedAreAll(cfg, history, log, i);
    MissingMeansBlank(t.seen.task.value.card, t.seen.accepted, f);
    if text :| (Some(f), text) in t.seen.accepted && Blank(text) {
      var k :| 0 <= k < |t.seen.accepted| && t.seen.accepted[k] == (Some(f), text);
      assert AnswersField(history[i + 1], t.order[k], r.session, f);
    } else {
      var db := history[i + 1];
      forall a | a in db.answers
        ensures !AnswersField(db, a, r.session, f)
      {
        if a.question.round.session == r.session {
          var k :| 0 <= k < |t.order| && t.order[k] == a;
          assert t.seen.accepted[k] in t.seen.accepted;
        }
      }
    }
  }

  lemma RoundIsOfSession(cfg: Config, history: seq<Db>, log: seq<Txn>, i: nat, r: RoundId)
    requires cfg.versions && Run(cfg, history, log) && i < |log| && log[i].Answers?
    requires IsActive(history[i + 1], r) && !IsActive(history[i], r)
    ensures history[i + 1] != history[i] && log[i].seen.session.Some? && log[i].seen.session.value.id == r.session
  {
    AnswersCommit(cfg, history, log, i);
    RoundIsNew(cfg, history, log, i, r);
    var w := WritesOf(cfg, log[i]).value;
    hide Run, WritesOf, ListsAccepted;
    QuestionsWithRound(cfg, log[i], w);
    WaitingWrites(cfg, log[i], w);
  }

  // ---- One answer per field ----

  lemma {:induction false} GapsAreDistinct(card: Card, fields: seq<Field>)
    requires forall i, j :: 0 <= i < j < |fields| ==> fields[i] != fields[j]
    ensures forall i, j :: 0 <= i < j < |MissingOf(card, fields)| ==>
      MissingOf(card, fields)[i] != MissingOf(card, fields)[j]
    ensures forall f :: f in MissingOf(card, fields) ==> f in fields
  {
    if fields != [] {
      var init := fields[..|fields| - 1];
      GapsAreDistinct(card, init);
      assert fields == init + [Last(fields)];
      assert Last(fields) !in init;
      assert forall j :: 0 <= j < |MissingOf(card, init)| ==> MissingOf(card, init)[j] in MissingOf(card, init);
    }
  }

  /** A round asks for a field once. */
  lemma AskedOncePerRound(cfg: Config, history: seq<Db>, log: seq<Txn>, n: nat, p: QuestionId, q: QuestionId)
    requires cfg.versions && Run(cfg, history, log) && n < |history| && p.round == q.round
    requires p in history[n].questions && q in history[n].questions && p.round in history[n].rounds
    requires history[n].questions[p].dimension == history[n].questions[q].dimension
    ensures p == q
  {
    hide Run, IsActive;
    var i := RoundOpens(cfg, history, log, n, p.round);
    OpenedRoundAsksGaps(cfg, history, log, i, p.round);
    QuestionsStay(cfg, history, log, i + 1, n, p);
    QuestionsStay(cfg, history, log, i + 1, n, q);
    var card := Evaluated(log[i]).value;
    GapsAreDistinct(card, RequiredFields(card.taskType));
  }

  ghost predicate NoneBlank(db: Db, s: SessionId, f: Field) {
    forall a :: AnswersField(db, a, s, f) ==> !Blank(db.answers[a].text)
  }

  lemma NewestRound(cfg: Config, history: seq<Db>, log: seq<Txn>, i: nat, j: nat, r: RoundId, later: RoundId)
    requires cfg.versions && Run(cfg, history, log) && i <= j < |history|
    requires r.session == later.session && r.number < later.number
    requires later in history[i].rounds
    ensures !IsActive(history[j], r)
  {
    RoundsStay(cfg, history, log, i, j, later);
    RoundHasSession(cfg, history, log, j, later);
    SessionsKeepShape(cfg, history, log, j, r.session);
  }

  /** Once a round is open, earlier rounds of its session get no more answers. */
  lemma EarlierIsThere(cfg: Config, history: seq<Db>, log: seq<Txn>, i: nat, n: nat, a: AnswerId, later: RoundId)
    requires cfg.versions && Run(cfg, history, log) && i <= n < |history| && a in history[n].answers
    requires a.question.round.session == later.session && a.question.round.number < later.number
    requires later in history[i].rounds
    ensures a in history[i].answers
  {
    hide Run, IsActive;
    if a !in history[i].answers {
      var j := AnswerAppears(cfg, history, log, i, n, a);
      NewestRound(cfg, history, log, i, j, a.question.round, later);
    }
  }

  /** A field that is asked in a later round has a blank answer. */
  lemma TwoRoundsNeedBlank(cfg: Config, history: seq<Db>, log: seq<Txn>, n: nat, f: Field, a: AnswerId, q: QuestionId)
    requires cfg.versions && Run(cfg, history, log) && n < |history|
    requires AnswersField(history[n], a, q.round.session, f) && a.question.round.number < q.round.number
    requires q in history[n].questions && history[n].questions[q].dimension == Some(f) && q.round in history[n].rounds
    ensures !NoneBlank(history[n], q.round.session, f)
  {
    hide Run, IsActive, Blank;
    var i := RoundOpens(cfg, history, log, n, q.round);
    EarlierIsThere(cfg, history, log, i + 1, n, a, q.round);
    AnswersCloseTheirRound(cfg, history, log, i + 1, a);
    QuestionsStay(cfg, history, log, i + 1, n, a.question);
    QuestionsStay(cfg, history, log, i + 1, n, q);
    AnswersStay(cfg, history, log, i + 1, n, a);
    AskedAgain(cfg, history, log, i, q, f);
    var c :| AnswersField(history[i + 1], c, q.round.session, f) && Blank(history[i + 1].answers[c].text);
    AnswersStay(cfg, history, log, i + 1, n, c);
    QuestionsStay(cfg, history, log, i + 1, n, c.question);
    assert AnswersField(history[n], c, q.round.session, f);
  }

  /** Without blank replies to a field, a session has at most one answer to it. */
  lemma AnsweredOnce(cfg: Config, history: seq<Db>, log: seq<Txn>, n: nat, s: SessionId, f: Field,
                     a: AnswerId, b: AnswerId)
    requires cfg.versions && Run(cfg, history, log) && n < |history| && NoneBlank(history[n], s, f)
    requires AnswersField(history[n], a, s, f) && AnswersField(history[n], b, s, f)
    ensures a == b
  {
    hide Run, NoneBlank, IsActive;
    var p, q := a.question, b.question;
    AnswersCloseTheirRound(cfg, history, log, n, a);
    AnswersCloseTheirRound(cfg, history, log, n, b);
    if p.round.number < q.round.number {
      TwoRoundsNeedBlank(cfg, history, log, n, f, a, q);
    } else if q.round.number < p.round.number {
      TwoRoundsNeedBlank(cfg, history, log, n, f, b, p);
    } else {
      AskedOncePerRound(cfg, history, log, n, p, q);
      OneAnswerForEver(cfg, history, log, n, n, a, b);
    }
  }

  lemma ListedNoneBlank(db: Db, t: Txn, s: SessionId, f: Field)
    requires t.Answers? && |t.order| == |t.seen.accepted| && forall e :: e in t.seen.accepted ==> !Blank(e.1)
    requires forall a :: a in db.answers && a.question.round.session == s ==> a in t.order
    requires forall k :: 0 <= k < |t.order| ==>
      && t.order[k] in db.answers && t.order[k].question in db.questions
      && t.seen.accepted[k] == (db.questions[t.order[k].question].dimension, db.answers[t.order[k]].text)
    ensures NoneBlank(db, s, f)
  {
    forall a | AnswersField(db, a, s, f)
      ensures !Blank(db.answers[a].text)
    {
      var k :| 0 <= k < |t.order| && t.order[k] == a;
      assert t.seen.accepted[k] in t.seen.accepted;
    }
  }

  lemma NoBlankUndisputed(cfg: Config, history: seq<Db>, log: seq<Txn>, i: nat)
    requires cfg.versions && Run(cfg, history, log) && i < |log| && log[i].Answers? && history[i + 1] != history[i]
    requires forall e :: e in log[i].seen.accepted ==> !Blank(e.1)
    ensures Undisputed(log[i].seen.accepted)
  {
    hide Run, Blank, NoneBlank;
    RunStarts(cfg, history, log);
    var t, db := log[i], history[i + 1];
    AcceptedAreAll(cfg, history, log, i);
    forall x, y | x in t.seen.accepted && y in t.seen.accepted && x.0.Some? && x.0 == y.0
      ensures x == y
    {
      var k :| 0 <= k < |t.order| && t.seen.accepted[k] == x;
      var l :| 0 <= l < |t.order| && t.seen.accepted[l] == y;
      ListedNoneBlank(db, t, t.seen.session.value.id, x.0.value);
      AnsweredOnce(cfg, history, log, i + 1, t.seen.session.value.id, x.0.value, t.order[k], t.order[l]);
    }
  }

  /** If a committed answer transaction lists no blank answer, the card it works out does not depend on the order
      of the list. */
  lemma NoBlankNoChoice(cfg: Config, history: seq<Db>, log: seq<Txn>, i: nat)
    requires cfg.versions && Run(cfg, history, log) && i < |log| && log[i].Answers? && history[i + 1] != history[i]
    requires forall e :: e in log[i].seen.accepted ==> !Blank(e.1)
    ensures Undisputed(log[i].seen.accepted)
    ensures forall card, other :: SameEntries(other, log[i].seen.accepted) ==>
      Merged(card, other) == Merged(card, log[i].seen.accepted)
  {
    hide Run, Blank, Merged, SameEntries, Undisputed;
    var t := log[i];
    NoBlankUndisputed(cfg, history, log, i);
    forall card, other | SameEntries(other, t.seen.accepted)
      ensures Merged(card, other) == Merged(card, t.seen.accepted)
    {
      OrderDecidesIff(card, t.seen.accepted);
    }
  }
}
