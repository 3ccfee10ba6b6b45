/** The briefing state machine: which transitions the server accepts
    (app/briefing_state_machine.py). */
module BriefingFsm {
  import opened Wrappers

  datatype State =
    | New | QuestionsGenerated | WaitingAnswers | AnswersReceived | CompletenessCheck | NeedsMoreInfo
    | ReadyForGo | GoAuthCheck | Approved | PlanGate | ExpiredWaitingAnswers | BlockedManual | Cancelled | Error

  const TERMINAL: set<State> := {Approved, PlanGate, BlockedManual, Cancelled, Error}
  const ANY_TARGETS: set<State> := {BlockedManual, Cancelled, Error}

  function Edges(s: State): set<State> {
    match s
    case New => {QuestionsGenerated, CompletenessCheck}
    case QuestionsGenerated => {WaitingAnswers}
    case WaitingAnswers => {AnswersReceived, ExpiredWaitingAnswers}
    case AnswersReceived => {CompletenessCheck}
    case CompletenessCheck => {NeedsMoreInfo, ReadyForGo}
    case NeedsMoreInfo => {WaitingAnswers}
    case ReadyForGo => {GoAuthCheck, WaitingAnswers}
    case GoAuthCheck => {Approved, ReadyForGo}
    case Approved => {PlanGate}
    case ExpiredWaitingAnswers => {WaitingAnswers}
    case PlanGate => {}
    case BlockedManual => {}
    case Cancelled => {}
    case Error => {}
  }

  function AllowedTargets(s: State): set<State> {
    if s in TERMINAL then Edges(s) else Edges(s) + ANY_TARGETS
  }

  predicate CanTransition(src: State, dst: State) { dst in AllowedTargets(src) }

  /** From where each state can be entered. */
  lemma EnteredFrom(src: State, dst: State)
    ensures CanTransition(src, dst) <==>
      match dst
      case New => false
      case QuestionsGenerated => src == New
      case WaitingAnswers => src in {QuestionsGenerated, NeedsMoreInfo, ExpiredWaitingAnswers, ReadyForGo}
      case AnswersReceived => src == WaitingAnswers
      case ExpiredWaitingAnswers => src == WaitingAnswers
      case CompletenessCheck => src in {New, AnswersReceived}
      case NeedsMoreInfo => src == CompletenessCheck
      case ReadyForGo => src in {CompletenessCheck, GoAuthCheck}
      case GoAuthCheck => src == ReadyForGo
      case Approved => src == GoAuthCheck
      case PlanGate => src == Approved
      case BlockedManual => src !in {Approved, PlanGate, BlockedManual, Cancelled, Error}
      case Cancelled => src !in {Approved, PlanGate, BlockedManual, Cancelled, Error}
      case Error => src !in {Approved, PlanGate, BlockedManual, Cancelled, Error}
  {
  }

  /** A sequence of accepted transitions. */
  ghost predicate IsPath(path: seq<State>) {
    |path| > 0 && forall i :: 0 <= i < |path| - 1 ==> CanTransition(path[i], path[i + 1])
  }

  /** Closed is closed: from a terminal state a path stays in terminal states, and all it can do is
      go from APPROVED to PLAN_GATE, once. */
  lemma {:induction false} TerminalIsFinal(path: seq<State>)
    requires IsPath(path) && path[0] in TERMINAL
    ensures path == [path[0]] || path == [Approved, PlanGate]
  {
    if |path| > 1 {
      assert CanTransition(path[0], path[1]);
      assert IsPath(path[1..]) by {
        forall i | 0 <= i < |path[1..]| - 1
          ensures CanTransition(path[1..][i], path[1..][i + 1])
        {
          assert CanTransition(path[i + 1], path[i + 2]);
        }
      }
      TerminalIsFinal(path[1..]);
      assert path == [path[0]] + path[1..];
    }
  }

  /** APPROVED is entered only through the authorisation check, which is entered only from
      READY_FOR_GO: a path from NEW that reaches APPROVED has both just before it. */
  lemma {:induction false} ApprovedNeedsGo(path: seq<State>)
    requires IsPath(path) && path[0] == New && Last(path) == Approved
    ensures |path| >= 4 && path[|path| - 2] == GoAuthCheck && path[|path| - 3] == ReadyForGo
  {
    assert CanTransition(path[|path| - 2], path[|path| - 1]);
    assert CanTransition(path[|path| - 3], path[|path| - 2]);
    assert CanTransition(path[|path| - 4], path[|path| - 3]);
  }

  /** The task becomes ready only by a completeness check, or again after a `/go` that was refused. */
  lemma ReadyNeedsCheck(path: seq<State>)
    requires IsPath(path) && |path| >= 2 && Last(path) == ReadyForGo
    ensures path[|path| - 2] in {CompletenessCheck, GoAuthCheck}
    ensures path[0] == New ==> CompletenessCheck in path
    decreases |path|
  {
    assert CanTransition(path[|path| - 2], path[|path| - 1]);
    if path[|path| - 2] == GoAuthCheck && path[0] == New {
      assert CanTransition(path[|path| - 3], path[|path| - 2]);
      assert forall i :: 0 <= i < |path| - 3 ==> CanTransition(path[i], path[i + 1]);
      ReadyNeedsCheck(path[..|path| - 2]);
    }
  }

  /** Every open state is reachable from NEW, and from each of them the task can still be approved. */
  lemma OpenCanBeApproved(s: State) returns (path: seq<State>, k: nat)
    requires s !in TERMINAL
    ensures IsPath(path) && path[0] == New && k < |path| && path[k] == s && Last(path) == Approved
  {
    var asked := [New, QuestionsGenerated, WaitingAnswers, ExpiredWaitingAnswers, WaitingAnswers, AnswersReceived];
    var again := [CompletenessCheck, NeedsMoreInfo, WaitingAnswers, AnswersReceived, CompletenessCheck, ReadyForGo];
    path := asked + again + [GoAuthCheck, Approved];
    assert path[0] == New && path[1] == QuestionsGenerated && path[2] == WaitingAnswers && path[5] == AnswersReceived;
    assert path[3] == ExpiredWaitingAnswers && path[6] == CompletenessCheck && path[7] == NeedsMoreInfo;
    assert path[11] == ReadyForGo && path[12] == GoAuthCheck;
    k :| 0 <= k < |path| && path[k] == s;
  }

  /** The table alone does not bound a briefing: it has a cycle through WAITING_ANSWERS. */
  lemma TableHasCycle(n: nat) returns (path: seq<State>)
    ensures IsPath(path) && path[0] == Last(path) == WaitingAnswers && |path| == 4 * n + 1
  {
    path := [WaitingAnswers];
    var k := 0;
    while k < n
      invariant IsPath(path) && path[0] == Last(path) == WaitingAnswers && |path| == 4 * k + 1 && k <= n
    {
      path := path + [AnswersReceived, CompletenessCheck, NeedsMoreInfo, WaitingAnswers];
      k := k + 1;
    }
  }
}
