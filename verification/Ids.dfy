/** Row and lock identifiers. The program builds them by joining strings; here they are structured
    values, and each is shown to render to a different string, so nothing is lost
    (app/orchestrator.py:188,401,453-455, app/state.py:97-102). */
module Ids {
  import opened Wrappers

  datatype SessionId = SessionId(task: string)
  datatype RoundId = RoundId(session: SessionId, number: nat)
  datatype QuestionId = QuestionId(round: RoundId, ordinal: nat)
  datatype AnswerId = AnswerId(question: QuestionId, comment: string)
  datatype LockKey = TaskLock(task: string) | BriefingLock(task: string)

  function Digit(d: nat): char
    requires d < 10
  {
    ('0' as int + d) as char
  }

  predicate IsDigit(c: char) { '0' <= c <= '9' }

  function Decimal(n: nat): (s: string)
    ensures |s| > 0 && forall i :: 0 <= i < |s| ==> IsDigit(s[i])
  {
    if n < 10 then [Digit(n)] else Decimal(n / 10) + [Digit(n % 10)]
  }

  function ShowSession(id: SessionId): string { "brf_" + id.task }

  function ShowRound(id: RoundId): string { ShowSession(id.session) + ":r" + Decimal(id.number) }

  function ShowQuestion(id: QuestionId): string { ShowRound(id.round) + ":q" + Decimal(id.ordinal) }

  function ShowAnswer(id: AnswerId): string { ShowQuestion(id.question) + "#" + id.comment }

  function ShowLock(key: LockKey): string {
    match key
    case TaskLock(task) => "lock:task:" + task
    case BriefingLock(task) => "lock:briefing:" + task
  }

  /** Characters a task id may contain. None of them is '#'. */
  predicate IsTaskId(s: string) {
    |s| > 0 && forall i :: 0 <= i < |s| ==>
      IsDigit(s[i]) || 'a' <= s[i] <= 'z' || 'A' <= s[i] <= 'Z' || s[i] in {'_', ':', '.', '-'}
  }

  lemma {:induction false} DecimalInjective(m: nat, n: nat)
    requires Decimal(m) == Decimal(n)
    ensures m == n
  {
    var s, t := Decimal(m), Decimal(n);
    if m >= 10 && n >= 10 {
      assert s[..|s| - 1] == Decimal(m / 10) && t[..|t| - 1] == Decimal(n / 10);
      DecimalInjective(m / 10, n / 10);
      assert s[|s| - 1] == Digit(m % 10) && t[|t| - 1] == Digit(n % 10);
    }
  }

  function TrailingDigits(s: string): nat {
    if s == "" || !IsDigit(Last(s)) then 0 else 1 + TrailingDigits(s[..|s| - 1])
  }

  lemma {:induction false} TrailingIsNumber(s: string, digits: string)
    requires |s| > 0 && !IsDigit(Last(s)) && forall i :: 0 <= i < |digits| ==> IsDigit(digits[i])
    ensures TrailingDigits(s + digits) == |digits|
  {
    if digits == "" {
      assert s + digits == s;
    } else {
      var init := digits[..|digits| - 1];
      assert (s + digits)[..|s + digits| - 1] == s + init;
      TrailingIsNumber(s, init);
    }
  }

  /** A numbered label splits in one way, whatever digits or separators precede it. */
  lemma NumberedInjective(s: string, t: string, sep: string, m: nat, n: nat)
    requires |sep| > 0 && !IsDigit(Last(sep))
    requires s + sep + Decimal(m) == t + sep + Decimal(n)
    ensures s == t && m == n
  {
    TrailingIsNumber(s + sep, Decimal(m));
    TrailingIsNumber(t + sep, Decimal(n));
    var x, k := s + sep + Decimal(m), |Decimal(m)|;
    assert x[|x| - k..] == Decimal(m) && x[|x| - k..] == Decimal(n);
    DecimalInjective(m, n);
    assert x[..|s|] == s && x[..|s|] == t;
  }

  lemma SessionsDiffer(a: SessionId, b: SessionId)
    requires ShowSession(a) == ShowSession(b)
    ensures a == b
  {
    assert ShowSession(a)[4..] == a.task && ShowSession(b)[4..] == b.task;
  }

  lemma RoundsDiffer(a: RoundId, b: RoundId)
    requires ShowRound(a) == ShowRound(b)
    ensures a == b
  {
    NumberedInjective(ShowSession(a.session), ShowSession(b.session), ":r", a.number, b.number);
    SessionsDiffer(a.session, b.session);
  }

  lemma QuestionsDiffer(a: QuestionId, b: QuestionId)
    requires ShowQuestion(a) == ShowQuestion(b)
    ensures a == b
  {
    NumberedInjective(ShowRound(a.round), ShowRound(b.round), ":q", a.ordinal, b.ordinal);
    RoundsDiffer(a.round, b.round);
  }

  lemma QuestionHasNoHash(id: QuestionId)
    requires IsTaskId(id.round.session.task)
    ensures '#' !in ShowQuestion(id)
  {
  }

  function BeforeHash(s: string): nat {
    if s == "" || s[0] == '#' then 0 else 1 + BeforeHash(s[1..])
  }

  lemma {:induction false} HashEndsQuestion(s: string, rest: string)
    requires '#' !in s
    ensures BeforeHash(s + "#" + rest) == |s|
  {
    if s != "" {
      assert (s + "#" + rest)[1..] == s[1..] + "#" + rest;
      HashEndsQuestion(s[1..], rest);
    }
  }

  /** Answers of real tasks have different keys, whatever the comment ids look like. */
  lemma AnswersDiffer(a: AnswerId, b: AnswerId)
    requires IsTaskId(a.question.round.session.task) && IsTaskId(b.question.round.session.task)
    requires ShowAnswer(a) == ShowAnswer(b)
    ensures a == b
  {
    QuestionHasNoHash(a.question);
    QuestionHasNoHash(b.question);
    var p, q, whole := ShowQuestion(a.question), ShowQuestion(b.question), ShowAnswer(a);
    HashEndsQuestion(p, a.comment);
    HashEndsQuestion(q, b.comment);
    assert whole[..|p|] == p && ShowAnswer(b)[..|q|] == q;
    assert whole[|p| + 1..] == a.comment && ShowAnswer(b)[|q| + 1..] == b.comment;
    QuestionsDiffer(a.question, b.question);
  }

  /** The two families of lock names never meet. */
  lemma LocksDiffer(a: LockKey, b: LockKey)
    requires ShowLock(a) == ShowLock(b)
    ensures a == b
  {
    if a.TaskLock? {
      assert ShowLock(a)[5] == 't';
      assert ShowLock(a)[10..] == a.task;
    } else {
      assert ShowLock(a)[5] == 'b';
      assert ShowLock(a)[14..] == a.task;
    }
    if b.TaskLock? {
      assert ShowLock(b)[5] == 't';
      assert ShowLock(b)[10..] == b.task;
    } else {
      assert ShowLock(b)[5] == 'b';
      assert ShowLock(b)[14..] == b.task;
    }
  }

  /** What identifiers and locks look like. */
  lemma ShownAs()
    ensures ShowAnswer(AnswerId(QuestionId(RoundId(SessionId("T-1"), 12), 3), "c7")) == "brf_T-1:r12:q3#c7"
    ensures ShowLock(TaskLock("T-1")) == "lock:task:T-1" && ShowLock(BriefingLock("T-1")) == "lock:briefing:T-1"
  {
  }
}
