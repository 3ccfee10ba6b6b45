/** The history of a question's answers (app/briefing_store.py:136-186) and the contract view of a
    session (app/briefing_store.py:287-329), under any sequence of store calls. */
module AnswerHistory {
  import opened Wrappers
  import opened Ids
  import opened BriefingSchema

  type Questions = map<QuestionId, Question>
  type Answers = map<AnswerId, Answer>

  /** One call of `record_answer`. */
  datatype Call = Call(question: QuestionId, comment: string, text: string)

  ghost function AnswersOf(answers: Answers, q: QuestionId): set<AnswerId> {
    set a | a in answers && a.question == q
  }

  ghost predicate IsActiveAnswer(answers: Answers, a: AnswerId) {
    a in answers && !answers[a].superseded
  }

  /** Of the n answers to a question each has its own version from 1 to n, and exactly the newest is
      active. */
  ghost predicate GoodQuestion(answers: Answers, q: QuestionId) {
    var mine := AnswersOf(answers, q);
    && (forall a :: a in mine ==>
      1 <= answers[a].version <= |mine| && (!answers[a].superseded <==> answers[a].version == |mine|))
    && (forall a, b :: a in mine && b in mine && answers[a].version == answers[b].version ==> a == b)
  }

  ghost predicate GoodHistory(answers: Answers) {
    forall q :: GoodQuestion(answers, q)
  }

  /** `to` is what a call that does not raise makes of the table. */
  ghost predicate Records(questions: Questions, answers: Answers, call: Call, to: Answers) {
    var id := AnswerId(call.question, call.comment);
    && call.question in questions && id !in answers && id in to
    && to.Keys == answers.Keys + {id}
    && !to[id].superseded && to[id].text == call.text
    && (forall a :: a in answers ==>
      to[a] == if a.question == call.question then answers[a].(superseded := true) else answers[a])
    && (forall a :: IsActiveAnswer(answers, a) && a.question == call.question ==>
      to[id].version == answers[a].version + 1)
    && ((forall a :: IsActiveAnswer(answers, a) ==> a.question != call.question) ==> to[id].version == 1)
  }

  class Store {
    var questions: Questions
    var answers: Answers

    constructor (asked: Questions)
      ensures questions == asked && answers == map[] && GoodHistory(answers)
    {
      questions, answers := asked, map[];
      new;
      EmptyIsGood();
    }

    /** The active answer of a question, if any. */
    method ActiveAnswer(q: QuestionId) returns (prev: Option<AnswerId>)
      ensures prev.Some? ==> IsActiveAnswer(answers, prev.value) && prev.value.question == q
      ensures prev.None? ==> forall a :: IsActiveAnswer(answers, a) ==> a.question != q
    {
      var found := set a | a in answers && a.question == q && !answers[a].superseded;
      if found == {} {
        assert forall a :: IsActiveAnswer(answers, a) && a.question == q ==> a in found;
        return None;
      }
      var a :| a in found;
      return Some(a);
    }

    /** Raises for an unknown question and for an answer key that is taken; otherwise the new answer
        replaces the active one. */
    method RecordAnswer(call: Call) returns (ok: bool)
      requires GoodHistory(answers)
      modifies `answers
      ensures GoodHistory(answers)
      ensures ok == (call.question in questions && AnswerId(call.question, call.comment) !in old(answers))
      ensures ok ==> Records(questions, old(answers), call, answers)
      ensures !ok ==> answers == old(answers)
    {
      var id := AnswerId(call.question, call.comment);
      if call.question !in questions {
        return false;
      }
      var prev := ActiveAnswer(call.question);
      if id in answers {
        return false;
      }
      ghost var was := answers;
      var version := 1;
      if prev.Some? {
        version := answers[prev.value].version + 1;
        answers := answers[prev.value := answers[prev.value].(superseded := true)];
      }
      answers := answers[id := Answer(version, false, call.text)];
      OneActive(was, call.question);
      RecordKeeps(questions, was, call, answers);
      return true;
    }
  }

  lemma OneActive(answers: Answers, q: QuestionId)
    requires GoodQuestion(answers, q)
    ensures forall a, b ::
      IsActiveAnswer(answers, a) && IsActiveAnswer(answers, b) && a.question == q == b.question ==> a == b
  {
    assert forall a :: a in answers && a.question == q ==> a in AnswersOf(answers, q);
  }

  /** A question that has answers has an active one: its newest. */
  lemma NewestIsActive(answers: Answers, q: QuestionId)
    requires GoodQuestion(answers, q) && AnswersOf(answers, q) != {}
    ensures exists a :: a in AnswersOf(answers, q) && !answers[a].superseded
  {
    var n := |AnswersOf(answers, q)|;
    VersionsFill(answers, AnswersOf(answers, q));
    assert n in Versions(answers, AnswersOf(answers, q));
  }

  ghost function Versions(answers: Answers, s: set<AnswerId>): set<nat>
    requires s <= answers.Keys
  {
    set a | a in s :: answers[a].version
  }

  function UpTo(n: nat): (r: set<nat>)
    ensures |r| == n && forall v :: v in r <==> 1 <= v <= n
  {
    if n == 0 then {} else UpTo(n - 1) + {n}
  }

  /** n different versions between 1 and n are all of them. */
  lemma VersionsFill(answers: Answers, s: set<AnswerId>)
    requires s <= answers.Keys && forall a :: a in s ==> 1 <= answers[a].version <= |s|
    requires forall a, b :: a in s && b in s && answers[a].version == answers[b].version ==> a == b
    ensures Versions(answers, s) == UpTo(|s|)
  {
    SameCount(answers, s);
    SubsetFills(Versions(answers, s), UpTo(|s|));
  }

  lemma {:induction false} SameCount(answers: Answers, s: set<AnswerId>)
    requires s <= answers.Keys
    requires forall a, b :: a in s && b in s && answers[a].version == answers[b].version ==> a == b
    ensures |Versions(answers, s)| == |s|
    decreases |s|
  {
    if s != {} {
      var x :| x in s;
      SameCount(answers, s - {x});
      assert Versions(answers, s) == Versions(answers, s - {x}) + {answers[x].version};
      assert answers[x].version !in Versions(answers, s - {x});
    } else {
      assert Versions(answers, s) == {};
    }
  }

  lemma SubsetFills<T>(s: set<T>, t: set<T>)
    requires s <= t && |s| == |t|
    ensures s == t
  {
    if x :| x in t && x !in s {
      assert s <= t - {x};
      SubsetSmaller(s, t - {x});
    }
  }

  lemma {:induction false} SubsetSmaller<T>(s: set<T>, t: set<T>)
    requires s <= t
    ensures |s| <= |t|
  {
    assert t == s + (t - s);
  }

  lemma NextVersion(questions: Questions, answers: Answers, call: Call, to: Answers)
    requires GoodQuestion(answers, call.question) && Records(questions, answers, call, to)
    ensures to[AnswerId(call.question, call.comment)].version == |AnswersOf(answers, call.question)| + 1
  {
    if AnswersOf(answers, call.question) != {} {
      NewestIsActive(answers, call.question);
      var a :| a in AnswersOf(answers, call.question) && !answers[a].superseded;
      assert IsActiveAnswer(answers, a);
    }
  }

  lemma RecordKeepsAnswered(questions: Questions, answers: Answers, call: Call, to: Answers)
    requires GoodQuestion(answers, call.question) && Records(questions, answers, call, to)
    ensures GoodQuestion(to, call.question)
  {
    NextVersion(questions, answers, call, to);
    assert AnswersOf(to, call.question) == AnswersOf(answers, call.question) + {AnswerId(call.question, call.comment)};
  }

  lemma RecordKeepsOther(questions: Questions, answers: Answers, call: Call, to: Answers, q: QuestionId)
    requires GoodQuestion(answers, q) && q != call.question && Records(questions, answers, call, to)
    ensures GoodQuestion(to, q)
  {
    assert AnswersOf(to, q) == AnswersOf(answers, q);
  }

  lemma RecordKeeps(questions: Questions, answers: Answers, call: Call, to: Answers)
    requires GoodHistory(answers) && Records(questions, answers, call, to)
    ensures GoodHistory(to)
  {
    hide GoodQuestion, Records;
    forall q
      ensures GoodQuestion(to, q)
    {
      if q == call.question {
        RecordKeepsAnswered(questions, answers, call, to);
      } else {
        RecordKeepsOther(questions, answers, call, to, q);
      }
    }
  }

  // ---- Any sequence of calls ----

  /** Each call either raised and changed nothing, or recorded its answer. */
  ghost predicate Calls(questions: Questions, states: seq<Answers>, calls: seq<Call>) {
    && |states| == |calls| + 1 && states[0] == map[]
    && forall i :: 0 <= i < |calls| ==>
      states[i + 1] == states[i] || Records(questions, states[i], calls[i], states[i + 1])
  }

  lemma {:induction false} CallsKeep(questions: Questions, states: seq<Answers>, calls: seq<Call>, i: nat)
    requires Calls(questions, states, calls) && i < |states|
    ensures GoodHistory(states[i])
  {
    hide GoodHistory, Records;
    if i == 0 {
      EmptyIsGood();
    } else {
      CallsKeep(questions, states, calls, i - 1);
      assert states[i - 1 + 1] == states[i - 1] || Records(questions, states[i - 1], calls[i - 1], states[i - 1 + 1]);
      if states[i] != states[i - 1] {
        RecordKeeps(questions, states[i - 1], calls[i - 1], states[i]);
      }
    }
  }

  lemma EmptyIsGood()
    ensures GoodHistory(map[])
  {
    assert forall q :: AnswersOf(map[], q) == {};
  }

  /** After any calls the versions of a question are exactly 1 to n and version n alone is active. */
  lemma VersionsAreOneToN(questions: Questions, states: seq<Answers>, calls: seq<Call>, i: nat, q: QuestionId)
    requires Calls(questions, states, calls) && i < |states|
    ensures Versions(states[i], AnswersOf(states[i], q)) == UpTo(|AnswersOf(states[i], q)|)
    ensures forall a :: a in AnswersOf(states[i], q) ==>
      (!states[i][a].superseded <==> states[i][a].version == |AnswersOf(states[i], q)|)
  {
    CallsKeep(questions, states, calls, i);
    assert GoodQuestion(states[i], q);
    hide Calls, GoodHistory;
    VersionsFill(states[i], AnswersOf(states[i], q));
  }

  // ---- The contract view ----

  function Answered(answers: Answers, s: SessionId): set<QuestionId> {
    set a | a in answers && a.question.round.session == s && !answers[a].superseded :: a.question
  }

  /** Open questions among those the query returned, in its order. */
  function OpenQuestions(questions: Questions, answered: set<QuestionId>, listed: seq<QuestionId>): seq<QuestionId>
    requires forall q :: q in listed ==> q in questions
  {
    if listed == [] then []
    else
      var rest := OpenQuestions(questions, answered, listed[1..]);
      var open := listed[0] !in answered && !questions[listed[0]].skipped && questions[listed[0]].blocking;
      if open then [listed[0]] + rest else rest
  }

  lemma {:induction false} OpenAre(questions: Questions, answered: set<QuestionId>, listed: seq<QuestionId>)
    requires forall q :: q in listed ==> q in questions
    ensures forall q :: q in OpenQuestions(questions, answered, listed) <==>
      q in listed && q !in answered && !questions[q].skipped && questions[q].blocking
  {
    if listed != [] {
      OpenAre(questions, answered, listed[1..]);
      assert listed == [listed[0]] + listed[1..];
    }
  }

  /** The open questions come in the order of the listing: those of its parts, one after the other. */
  lemma {:induction false} OpenInOrder(questions: Questions, answered: set<QuestionId>, listed: seq<QuestionId>,
                                       more: seq<QuestionId>)
    requires forall q :: q in listed + more ==> q in questions
    ensures (forall q :: q in listed ==> q in questions) && forall q :: q in more ==> q in questions
    ensures OpenQuestions(questions, answered, listed + more)
      == OpenQuestions(questions, answered, listed) + OpenQuestions(questions, answered, more)
  {
    forall q | q in listed || q in more
      ensures q in listed + more
    {
    }
    if listed == [] {
      assert listed + more == more;
    } else {
      assert (listed + more)[1..] == listed[1..] + more;
      OpenInOrder(questions, answered, listed[1..], more);
    }
  }

  /** With a good history a question of the session is open exactly when it blocks, was not skipped,
      and has never been answered. */
  lemma OpenMeansNeverAnswered(questions: Questions, answers: Answers, s: SessionId, listed: seq<QuestionId>)
    requires GoodHistory(answers)
    requires forall q :: q in listed <==> q in questions && q.round.session == s
    ensures forall q :: q in OpenQuestions(questions, Answered(answers, s), listed) <==>
      && q in questions && q.round.session == s && questions[q].blocking && !questions[q].skipped
      && AnswersOf(answers, q) == {}
  {
    OpenAre(questions, Answered(answers, s), listed);
    forall q: QuestionId | q.round.session == s
      ensures q in Answered(answers, s) <==> AnswersOf(answers, q) != {}
    {
      if AnswersOf(answers, q) != {} {
        NewestIsActive(answers, q);
        var a :| a in AnswersOf(answers, q) && !answers[a].superseded;
        assert a.question == q && a in answers;
      }
      if q in Answered(answers, s) {
        var a :| a in answers && a.question.round.session == s && !answers[a].superseded && a.question == q;
        assert a in AnswersOf(answers, q);
      }
    }
  }

  /** A recorded answer closes its question and no other. */
  lemma RecordingCloses(questions: Questions, answers: Answers, call: Call, to: Answers)
    requires GoodHistory(answers) && Records(questions, answers, call, to)
    ensures Answered(to, call.question.round.session)
      == Answered(answers, call.question.round.session) + {call.question}
    ensures forall s :: s != call.question.round.session ==> Answered(to, s) == Answered(answers, s)
  {
    var id := AnswerId(call.question, call.comment);
    assert id in to && id.question == call.question;
    forall s, q
      ensures q in Answered(to, s) <==> q in Answered(answers, s) || (q == call.question && s == q.round.session)
    {
      if q in Answered(answers, s) && q != call.question {
        var a :| a in answers && a.question.round.session == s && !answers[a].superseded && a.question == q;
        assert to[a] == answers[a];
      }
      if q in Answered(to, s) && q != call.question {
        var a :| a in to && a.question.round.session == s && !to[a].superseded && a.question == q;
        assert to[a] == answers[a];
      }
    }
  }
}
