/** From an approved card to merge requests: the scope budget, the review gates, one repository's slice,
    the repair of a branch, and the whole plan over several repositories (app/scope.py, app/gates.py,
    app/redteam.py, app/orchestrator.py). */
module Delivery {
  import opened Wrappers
  import opened Contracts
  import opened Risk
  import opened Coding
  import opened GitLabHost

  // ---- Scope budget ----

  datatype Settings = Settings(
    risk: RiskSettings, redTeamTriggers: seq<string>, forkBase: Branch, maxDiffLinesAuto: int, maxCodeIterations: int)

  datatype ScopeReason = TooManyLines(count: nat, limit: int) | TooManyFiles(count: nat, limit: int)
  datatype ScopeVerdict = ScopeVerdict(diffLines: nat, changedFiles: nat, withinBudget: bool, reasons: seq<ScopeReason>)

  /** Changed lines of the produced files; `diff` counts added and removed lines of two texts. */
  function ChangedLines(diff: (string, string) -> nat, was: string -> string, files: Batch): nat {
    if files == [] then 0
    else ChangedLines(diff, was, files[..|files| - 1]) + diff(was(Last(files).path), Last(files).content)
  }

  function RemovedLines(lines: string -> nat, was: string -> string, deletions: seq<string>): nat {
    if deletions == [] then 0
    else RemovedLines(lines, was, deletions[..|deletions| - 1]) + lines(was(Last(deletions)))
  }

  /** Lines changed by a coding result, where `was` gives the text a path had. */
  function DiffLines(w: RepoWorld, was: string -> string, files: Batch, deletions: seq<string>): nat {
    ChangedLines(w.diff, was, files) + RemovedLines(w.lines, was, deletions)
  }

  // Longer files are not read.
  const MAX_READ_BYTES: nat := 1_000_000

  /** The text a path has in a tree; none for a file that is not there. */
  function TextIn(locate: Locate, tree: Tree, path: string): string {
    if locate(path).Some? && locate(path).value in tree then tree[locate(path).value] else ""
  }

  /** The planned files before anything is written, as far as they can be read. */
  function Originals(w: RepoWorld, base: Tree, changes: seq<Change>): map<string, string> {
    map p | p in PathsIn(changes) ::
      if w.bytes(TextIn(w.coding.locate, base, p)) <= MAX_READ_BYTES then TextIn(w.coding.locate, base, p) else ""
  }

  function AssessScope(w: RepoWorld, originals: map<string, string>, files: Batch, deletions: seq<string>,
                       settings: Settings)
    : ScopeVerdict
  {
    var total := DiffLines(w, p => if p in originals then originals[p] else "", files, deletions);
    var changed := |files| + |deletions|;
    var overLines, overFiles := total > settings.maxDiffLinesAuto, changed > settings.risk.maxChangedFilesMedium;
    ScopeVerdict(total, changed, !overLines && !overFiles,
                 (if overLines then [TooManyLines(total, settings.maxDiffLinesAuto)] else [])
                 + (if overFiles then [TooManyFiles(changed, settings.risk.maxChangedFilesMedium)] else []))
  }

  // ---- Review gates ----

  datatype Verdict = Pass | PassWithNotes | Fail | NeedHuman
  datatype Severity = Minor | Moderate | Major | Worst
  datatype Opinion = Opinion(verdict: Verdict, severities: seq<Severity>)

  /** An unreadable answer is `NeedHuman`, so it blocks. */
  predicate MergeBlocked(o: Opinion) {
    o.verdict in {Fail, NeedHuman} || exists i :: 0 <= i < |o.severities| && o.severities[i] in {Major, Worst}
  }

  function PathsIn(changes: seq<Change>): seq<string> {
    seq(|changes|, i requires 0 <= i < |changes| => changes[i].path)
  }

  predicate RedTeamRequired(card: TaskCard, level: RiskLevel, changes: seq<Change>, settings: Settings) {
    level in {High, Blocked} || AnyContained(Haystack(card, PathsIn(changes)), settings.redTeamTriggers)
  }

  /** The review always runs, the Red Team when required; without an answer the call raised. */
  predicate GatesRaise(card: TaskCard, level: RiskLevel, changes: seq<Change>, w: RepoWorld, settings: Settings) {
    w.review.None? || (RedTeamRequired(card, level, changes, settings) && w.redTeam.None?)
  }

  predicate GatesBlock(card: TaskCard, level: RiskLevel, changes: seq<Change>, w: RepoWorld, settings: Settings)
    requires !GatesRaise(card, level, changes, w, settings)
  {
    || MergeBlocked(w.review.value)
    || (RedTeamRequired(card, level, changes, settings) && MergeBlocked(w.redTeam.value))
  }

  // ---- One repository ----

  /** Everything outside the program during one repository's run: the proposed plan (or none, if
      it was unusable), the coding oracle, the size of a text in bytes, line counts, the two opinions
      (or none, if the call raised), and GitLab. */
  datatype RepoWorld = RepoWorld(
    plan: Option<seq<Change>>,
    coding: World,
    bytes: string -> nat,
    diff: (string, string) -> nat,
    lines: string -> nat,
    review: Option<Opinion>,
    redTeam: Option<Opinion>,
    remote: Remote)

  /** `Raised` is an exception before publishing begins, `Stranded` one afterwards. */
  datatype Outcome =
    | Raised
    | Stranded(at: Ref)
    | RiskBlocked
    | NeedsHuman
    | SelfCheckFailed(issues: seq<Issue>)
    | MrReady(iid: nat, at: Ref, coding: CodingResult, scope: ScopeVerdict)

  datatype Planned = NoPlan | Gate(level: RiskLevel, changes: seq<Change>)

  /** Explore and plan: an unsafe path makes the plan unusable; the level is recomputed here. */
  function PlanGate(card: TaskCard, w: RepoWorld, settings: Settings): Planned {
    if w.plan.None? then NoPlan
    else if exists i :: 0 <= i < |w.plan.value| && w.coding.locate(w.plan.value[i].path).None? then NoPlan
    else Gate(Level(card, PathsIn(w.plan.value), settings.risk), w.plan.value)
  }

  function AutoBranch(card: TaskCard): Ref { Ref(card.targetRepo, "auto-task-" + card.taskId) }

  /** Branch if missing, commit, and find or open the merge request; no number if a call raised. */
  function Publish(f: Forge, card: TaskCard, w: RepoWorld, settings: Settings, files: Batch): Ran<Option<nat>> {
    var at := AutoBranch(card);
    var branch := EnsureBranch(f, at, settings.forkBase, w.remote);
    if !branch.out then Ran(branch.forge, branch.calls, None)
    else
      var commit := Ask(branch.forge, w.remote, CommitCall, CommitAct(w.coding.locate, at, files));
      if !commit.out then Ran(commit.forge, branch.calls, None)
      else
        var request := EnsureRequest(commit.forge, at, card.targetBranch, w.remote);
        Ran(request.forge, branch.calls + commit.calls + request.calls, request.out)
  }

  function ForkBase(card: TaskCard, settings: Settings): Ref { Ref(card.targetRepo, settings.forkBase) }

  /** The fork base as it was fetched; nothing if the call raised or the branch is missing. */
  function BaseOf(f: Forge, card: TaskCard, w: RepoWorld, settings: Settings): Option<Tree> {
    Fetched(f, ForkBase(card, settings), w.remote)
  }

  function Fetched(f: Forge, at: Ref, remote: Remote): Option<Tree> {
    var met := remote.others(FetchCall, f);
    if remote.refused == Some(FetchCall) || at !in met.trees then None else Some(met.trees[at])
  }

  /** Plan, code in a checkout of the fork base, publish. */
  function Slice(f: Forge, card: TaskCard, w: RepoWorld, settings: Settings): Ran<Outcome> {
    var met, base := w.remote.others(FetchCall, f), BaseOf(f, card, w, settings);
    var gate := PlanGate(card, w, settings);
    if base.None? || gate.NoPlan? then Ran(met, [], Raised)
    else if gate.level == Blocked then Ran(met, [], RiskBlocked)
    else if gate.level == High then Ran(met, [], NeedsHuman)
    else
      var run := Generate(w.coding, gate.changes, settings.maxCodeIterations, 1, base.value, [], map[]);
      if run.None? then Ran(met, [], Raised)
      else
        var coding := run.value.result;
        if coding.issues != [] then Ran(met, [], SelfCheckFailed(coding.issues))
        else
          var done := Publish(met, card, w, settings, coding.files);
          var originals := Originals(w, base.value, gate.changes);
          var scope := AssessScope(w, originals, coding.files, coding.deletions, settings);
          Ran(done.forge, done.calls,
              if done.out.None? then Stranded(AutoBranch(card))
              else MrReady(done.out.value, AutoBranch(card), coding, scope))
  }

  /** The slice, then the gates: Draft is lifted when the checks passed, nothing blocks and the
      diff is within budget. */
  function PlanOneRepo(f: Forge, card: TaskCard, w: RepoWorld, settings: Settings): Ran<Outcome> {
    var slice := Slice(f, card, w, settings);
    if !slice.out.MrReady? then slice
    else if GateRaises(card, w, settings) then slice.(out := Stranded(slice.out.at))
    else if !Ready(card, w, settings, slice.out) then slice
    else
      var lift := Ask(slice.forge, w.remote, LiftCall, LiftAct(card.targetRepo, slice.out.iid, card.reviewer));
      Ran(lift.forge, slice.calls + lift.calls, if lift.out then slice.out else Stranded(slice.out.at))
  }

  predicate GateRaises(card: TaskCard, w: RepoWorld, settings: Settings) {
    var gate := PlanGate(card, w, settings);
    gate.NoPlan? || GatesRaise(card, gate.level, gate.changes, w, settings)
  }

  predicate Ready(card: TaskCard, w: RepoWorld, settings: Settings, out: Outcome)
    requires out.MrReady? && !GateRaises(card, w, settings)
  {
    var gate := PlanGate(card, w, settings);
    out.coding.verified && !GatesBlock(card, gate.level, gate.changes, w, settings) && out.scope.withinBudget
  }

  // ---- What lifting Draft means ----

  /** No planned file of the base is too long to be read. */
  ghost predicate AllReadable(w: RepoWorld, base: Tree, changes: seq<Change>) {
    forall i :: 0 <= i < |changes| ==> w.bytes(TextIn(w.coding.locate, base, changes[i].path)) <= MAX_READ_BYTES
  }

  lemma {:induction false} SameLines(w: RepoWorld, was: string -> string, now: string -> string, files: Batch,
                                     deletions: seq<string>)
    requires forall i :: 0 <= i < |files| ==> was(files[i].path) == now(files[i].path)
    requires forall i :: 0 <= i < |deletions| ==> was(deletions[i]) == now(deletions[i])
    ensures DiffLines(w, was, files, deletions) == DiffLines(w, now, files, deletions)
  {
    if files != [] {
      SameLines(w, was, now, files[..|files| - 1], deletions);
    } else if deletions != [] {
      SameLines(w, was, now, files, deletions[..|deletions| - 1]);
    }
  }

  /** When every planned file can be read, the scope budget is about the diff against the fork base. */
  lemma ScopeIsDiff(w: RepoWorld, base: Tree, changes: seq<Change>, files: Batch, deletions: seq<string>,
                    settings: Settings)
    requires Covers(w.coding.locate, files, changes) && deletions == DeletedPaths(changes)
    requires AllReadable(w, base, changes)
    ensures AssessScope(w, Originals(w, base, changes), files, deletions, settings).diffLines
      == DiffLines(w, p => TextIn(w.coding.locate, base, p), files, deletions)
  {
    var originals := Originals(w, base, changes);
    forall p | p in PathsIn(changes)
      ensures p in originals && originals[p] == TextIn(w.coding.locate, base, p)
    {
      var i :| 0 <= i < |changes| && PathsIn(changes)[i] == p;
      assert changes[i].path == p;
    }
    forall i | 0 <= i < |files|
      ensures files[i].path in PathsIn(changes)
    {
      assert files[i].path in PathsOf(files);
      var j :| 0 <= j < |changes| && changes[j].action != Delete && changes[j].path == files[i].path;
      assert PathsIn(changes)[j] == files[i].path;
    }
    DeletedArePlanned(changes);
    SameLines(w, p => if p in originals then originals[p] else "", p => TextIn(w.coding.locate, base, p),
              files, deletions);
  }

  lemma {:induction false} DeletedArePlanned(changes: seq<Change>)
    ensures forall i :: 0 <= i < |DeletedPaths(changes)| ==> DeletedPaths(changes)[i] in PathsIn(changes)
  {
    if changes != [] {
      var init := changes[..|changes| - 1];
      DeletedArePlanned(init);
      forall p | p in PathsIn(init) || p == Last(changes).path
        ensures p in PathsIn(changes)
      {
        if p in PathsIn(init) {
          var i :| 0 <= i < |init| && PathsIn(init)[i] == p;
          assert PathsIn(changes)[i] == p;
        } else {
          assert PathsIn(changes)[|init|] == p;
        }
      }
    }
  }

  /** The opinion lets the request pass. */
  ghost predicate Approves(o: Opinion) {
    o.verdict in {Pass, PassWithNotes} && forall i :: 0 <= i < |o.severities| ==> o.severities[i] in {Minor, Moderate}
  }

  /** For a level the agent acts on alone, the Red Team is called in by the words of the card and the paths. */
  ghost predicate CallsRedTeam(card: TaskCard, changes: seq<Change>, settings: Settings) {
    exists i :: 0 <= i < |settings.redTeamTriggers|
                && Contains(Haystack(card, PathsIn(changes)), settings.redTeamTriggers[i])
  }

  lemma ApprovesIff(o: Opinion)
    ensures MergeBlocked(o) <==> !Approves(o)
  {
    forall i | 0 <= i < |o.severities|
      ensures o.severities[i] in {Minor, Moderate} <==> o.severities[i] !in {Major, Worst}
    {
      match o.severities[i] {
        case Minor =>
        case Moderate =>
        case Major =>
        case Worst =>
      }
    }
    match o.verdict {
      case Pass =>
      case PassWithNotes =>
      case Fail =>
      case NeedHuman =>
    }
  }

  /** The gates agree exactly if the review, and the Red Team where it is called in, were heard and approve. */
  lemma GatesMean(card: TaskCard, w: RepoWorld, settings: Settings)
    requires PlanGate(card, w, settings).Gate? && PlanGate(card, w, settings).level in {Low, Medium}
    ensures
      var calls := CallsRedTeam(card, PlanGate(card, w, settings).changes, settings);
      && (GateRaises(card, w, settings) <==> w.review.None? || (calls && w.redTeam.None?))
      && (!GateRaises(card, w, settings) ==>
        var gate := PlanGate(card, w, settings);
        GatesBlock(card, gate.level, gate.changes, w, settings) <==>
          !Approves(w.review.value) || (calls && !Approves(w.redTeam.value)))
  {
    hide PlanGate, Haystack, Contains, MergeBlocked, Approves;
    if w.review.Some? {
      ApprovesIff(w.review.value);
    }
    if w.redTeam.Some? {
      ApprovesIff(w.redTeam.value);
    }
  }

  /** What the plan gate has looked at. */
  lemma PlanIsGated(card: TaskCard, w: RepoWorld, settings: Settings)
    ensures
      var gate := PlanGate(card, w, settings);
      && (gate.Gate? <==>
        w.plan.Some? && forall i :: 0 <= i < |w.plan.value| ==> w.coding.locate(w.plan.value[i].path).Some?)
      && (gate.Gate? ==>
        gate.changes == w.plan.value && gate.level == Level(card, PathsIn(w.plan.value), settings.risk))
  {
    hide Level;
  }

  /** What the step that lifts Draft has established. `base` is what was fetched, `tree` what the checks
      ran on. */
  ghost predicate EarnedReady(base: Tree, card: TaskCard, w: RepoWorld, settings: Settings, coding: CodingResult,
                              tree: Tree)
  {
    && w.plan.Some? && var changes := w.plan.value;
    && (forall i :: 0 <= i < |changes| ==> w.coding.locate(changes[i].path).Some?)
    && Level(card, PathsIn(changes), settings.risk) in {Low, Medium}
    && tree == Written(w.coding.locate, base, coding.files)
    && Covers(w.coding.locate, coding.files, changes)
    && coding.iterations >= 1 && coding.checks == w.coding.check(coding.iterations, tree)
    && SomePassed(coding.checks) && NoneRed(coding.checks)
    && w.review.Some? && Approves(w.review.value)
    && (CallsRedTeam(card, changes, settings) ==> w.redTeam.Some? && Approves(w.redTeam.value))
    && (AllReadable(w, base, changes) ==>
      DiffLines(w, p => TextIn(w.coding.locate, base, p), coding.files, coding.deletions) <= settings.maxDiffLinesAuto)
    && |coding.files| + |coding.deletions| <= settings.risk.maxChangedFilesMedium
  }

  /** The coding run of a slice. */
  function CodingRun(f: Forge, card: TaskCard, w: RepoWorld, settings: Settings): Option<Run> {
    var base, gate := BaseOf(f, card, w, settings), PlanGate(card, w, settings);
    if base.None? || gate.NoPlan? then None
    else Generate(w.coding, gate.changes, settings.maxCodeIterations, 1, base.value, [], map[])
  }

  /** What a slice that came as far as publishing has behind it. */
  lemma PublishingSlice(f: Forge, card: TaskCard, w: RepoWorld, settings: Settings)
    requires var out := Slice(f, card, w, settings).out; out.MrReady? || out.Stranded?
    ensures
      var gate, base := PlanGate(card, w, settings), BaseOf(f, card, w, settings);
      var slice := Slice(f, card, w, settings);
      var run := CodingRun(f, card, w, settings);
      && base.Some? && gate.Gate? && gate.level in {Low, Medium} && run.Some? && run.value.result.issues == []
      && slice.out.at == AutoBranch(card)
      && var done := Publish(w.remote.others(FetchCall, f), card, w, settings, run.value.result.files);
      && slice.forge == done.forge && slice.calls == done.calls
      && (slice.out.MrReady? ==>
        && done.out == Some(slice.out.iid)
        && slice.out.coding == run.value.result
        && slice.out.scope == AssessScope(w, Originals(w, base.value, gate.changes),
                                          slice.out.coding.files, slice.out.coding.deletions, settings))
  {
    hide PlanGate, Generate, Publish, AssessScope, Originals, AutoBranch, Fetched;
  }

  /** A slice that ends with a merge request carries the evidence of its coding run on the tree it fetched. */
  lemma SliceEvidence(f: Forge, card: TaskCard, w: RepoWorld, settings: Settings)
    requires Slice(f, card, w, settings).out.MrReady?
    ensures
      var gate, base := PlanGate(card, w, settings), BaseOf(f, card, w, settings);
      var coding := Slice(f, card, w, settings).out.coding;
      && gate.Gate? && gate.level in {Low, Medium} && base.Some?
      && Evidence(w.coding, gate.changes, base.value,
                  Run(coding, Written(w.coding.locate, base.value, coding.files)))
  {
    PublishingSlice(f, card, w, settings);
    var changes, base := PlanGate(card, w, settings).changes, BaseOf(f, card, w, settings).value;
    var run := CodingRun(f, card, w, settings);
    GeneratedEvidence(w.coding, changes, settings.maxCodeIterations, 1, base, base, [], map[], run);
    hide Slice, Generate, PlanGate, Covers;
  }

  /** The slice is good enough to be lifted: checks passed, opinions approve, lines and files within budget. */
  ghost predicate IsGood(card: TaskCard, w: RepoWorld, settings: Settings, changes: seq<Change>, out: Outcome)
    requires out.MrReady?
  {
    && w.review.Some? && Approves(w.review.value)
    && (CallsRedTeam(card, changes, settings) ==> w.redTeam.Some? && Approves(w.redTeam.value))
    && out.coding.verified && out.scope.diffLines <= settings.maxDiffLinesAuto
    && out.scope.changedFiles <= settings.risk.maxChangedFilesMedium
  }

  lemma SliceScope(f: Forge, card: TaskCard, w: RepoWorld, settings: Settings)
    requires Slice(f, card, w, settings).out.MrReady?
    ensures
      var out, gate := Slice(f, card, w, settings).out, PlanGate(card, w, settings);
      && gate.Gate? && gate.level in {Low, Medium}
      && (out.scope.withinBudget <==>
        && out.scope.diffLines <= settings.maxDiffLinesAuto
        && out.scope.changedFiles <= settings.risk.maxChangedFilesMedium)
      && out.scope.changedFiles == |out.coding.files| + |out.coding.deletions|
  {
    PublishingSlice(f, card, w, settings);
    hide Slice, CodingRun, Generate, PlanGate, Originals, DiffLines, BaseOf, Publish;
  }

  /** A slice is lifted exactly if it is good enough. */
  lemma ReadyIff(f: Forge, card: TaskCard, w: RepoWorld, settings: Settings)
    requires Slice(f, card, w, settings).out.MrReady?
    ensures
      var out, gate := Slice(f, card, w, settings).out, PlanGate(card, w, settings);
      gate.Gate? && (!GateRaises(card, w, settings) && Ready(card, w, settings, out) <==>
        IsGood(card, w, settings, gate.changes, out))
  {
    hide Slice, PlanGate, Approves, CallsRedTeam, GateRaises, GatesBlock;
    SliceScope(f, card, w, settings);
    GatesMean(card, w, settings);
  }

  lemma ReadyIsEarned(f: Forge, card: TaskCard, w: RepoWorld, settings: Settings)
    requires Slice(f, card, w, settings).out.MrReady? && !GateRaises(card, w, settings)
    requires Ready(card, w, settings, Slice(f, card, w, settings).out)
    ensures
      var coding, base := Slice(f, card, w, settings).out.coding, BaseOf(f, card, w, settings);
      && base.Some?
      && EarnedReady(base.value, card, w, settings, coding, Written(w.coding.locate, base.value, coding.files))
  {
    hide Slice, CodingRun, Generate, PlanGate, Originals, DiffLines, BaseOf, Approves, CallsRedTeam, Level, GateRaises;
    hide Ready, AllReadable, Covers, Publish;
    SliceEvidence(f, card, w, settings);
    PublishingSlice(f, card, w, settings);
    SliceScope(f, card, w, settings);
    ReadyIff(f, card, w, settings);
    PlanIsGated(card, w, settings);
    var base, changes := BaseOf(f, card, w, settings).value, PlanGate(card, w, settings).changes;
    var coding := Slice(f, card, w, settings).out.coding;
    if AllReadable(w, base, changes) {
      ScopeIsDiff(w, base, changes, coding.files, coding.deletions, settings);
    }
  }

  // ---- The calls of a run ----

  /** What publishing may ask of GitLab. */
  ghost predicate IsPublishing(act: Act, card: TaskCard, w: RepoWorld, settings: Settings, files: Batch) {
    var at := AutoBranch(card);
    || act == ForkAct(at, settings.forkBase)
    || act == CommitAct(w.coding.locate, at, files)
    || act == OpenAct(at, card.targetBranch)
  }

  ghost predicate Answered(d: Done) {
    Possible(d.met, d.act) && d.left == Apply(d.met, d.act)
  }

  /** At most one call, and it is this one. */
  ghost predicate AtMost(calls: seq<Done>, act: Act) {
    calls == [] || (|calls| == 1 && calls[0].act == act && Answered(calls[0]))
  }

  lemma AskCalls(f: Forge, remote: Remote, call: Call, act: Act)
    ensures var asked := Ask(f, remote, call, act); AtMost(asked.calls, act) && (asked.out <==> asked.calls != [])
  {
    hide Apply, Possible;
  }

  lemma BranchCalls(f: Forge, at: Ref, from: Branch, remote: Remote)
    ensures AtMost(EnsureBranch(f, at, from, remote).calls, ForkAct(at, from))
  {
    hide Apply, Possible;
  }

  lemma RequestCalls(f: Forge, at: Ref, target: Branch, remote: Remote)
    ensures AtMost(EnsureRequest(f, at, target, remote).calls, OpenAct(at, target))
  {
    hide Apply, Possible, FirstOpen;
  }

  /** Publishing asks for nothing but the branch, the commit and the request, each once at most; if it ends
      with a request, it has committed. */
  lemma PublishCalls(f: Forge, card: TaskCard, w: RepoWorld, settings: Settings, files: Batch)
    ensures
      var done := Publish(f, card, w, settings, files);
      && (forall d :: d in done.calls ==> Answered(d) && IsPublishing(d.act, card, w, settings, files))
      && (done.out.Some? ==> exists d :: d in done.calls && d.act.CommitAct?)
      && (forall i, j :: 0 <= i < j < |done.calls| ==> !SameKind(done.calls[i].act, done.calls[j].act))
  {
    var at := AutoBranch(card);
    var branch := EnsureBranch(f, at, settings.forkBase, w.remote);
    var commit := Ask(branch.forge, w.remote, CommitCall, CommitAct(w.coding.locate, at, files));
    var request := EnsureRequest(commit.forge, at, card.targetBranch, w.remote);
    BranchCalls(f, at, settings.forkBase, w.remote);
    AskCalls(branch.forge, w.remote, CommitCall, CommitAct(w.coding.locate, at, files));
    RequestCalls(commit.forge, at, card.targetBranch, w.remote);
    hide Ask, EnsureBranch, EnsureRequest, Answered, AutoBranch;
    if branch.out && commit.out {
      assert commit.calls[0] in branch.calls + commit.calls + request.calls;
    }
  }

  /** What publishing ends with is open. */
  lemma PublishedIsOpen(f: Forge, card: TaskCard, w: RepoWorld, settings: Settings, files: Batch)
    requires Publish(f, card, w, settings, files).out.Some?
    ensures
      var done := Publish(f, card, w, settings, files);
      exists k :: Names(done.forge, k, done.out.value, AutoBranch(card))
  {
    hide EnsureRequest, AutoBranch;
    var branch := EnsureBranch(f, AutoBranch(card), settings.forkBase, w.remote);
    var commit := Ask(branch.forge, w.remote, CommitCall, CommitAct(w.coding.locate, AutoBranch(card), files));
    EnsuredIsOpen(commit.forge, AutoBranch(card), card.targetBranch, w.remote);
  }

  ghost predicate SameKind(a: Act, b: Act) {
    (a.ForkAct? && b.ForkAct?) || (a.CommitAct? && b.CommitAct?) || (a.OpenAct? && b.OpenAct?)
  }

  /** Entry `k` is the open merge request of this branch with this number. */
  ghost predicate Names(f: Forge, k: nat, iid: nat, at: Ref) {
    k < |f.mrs| && f.mrs[k].iid == iid && f.mrs[k].open && Ref(f.mrs[k].repo, f.mrs[k].source) == at
  }

  lemma EnsuredIsOpen(f: Forge, at: Ref, target: Branch, remote: Remote)
    requires EnsureRequest(f, at, target, remote).out.Some?
    ensures var done := EnsureRequest(f, at, target, remote); exists k :: Names(done.forge, k, done.out.value, at)
  {
    var done, met := EnsureRequest(f, at, target, remote), remote.others(FindCall, f);
    var k := FirstOpen(met.mrs, at);
    if k < |met.mrs| {
      assert Names(done.forge, k, done.out.value, at);
    } else {
      assert Names(done.forge, |done.forge.mrs| - 1, done.out.value, at);
    }
  }

  /** Of all calls of publishing only the request changes the list of requests, and it adds a draft. */
  lemma PublishingLeavesDrafts(d: Done, card: TaskCard, w: RepoWorld, settings: Settings, files: Batch)
    requires Answered(d) && IsPublishing(d.act, card, w, settings, files)
    ensures d.left.mrs ==
      d.met.mrs + if d.act.OpenAct? then [DraftFor(d.met, AutoBranch(card), card.targetBranch)] else []
  {
    hide Written;
  }

  /** The slice itself changes no merge request; it may open one, as a draft. */
  lemma SliceLeavesDrafts(f: Forge, card: TaskCard, w: RepoWorld, settings: Settings)
    ensures
      var slice := Slice(f, card, w, settings);
      && (forall d :: d in slice.calls ==>
        && Answered(d) && !d.act.LiftAct?
        && d.left.mrs ==
          d.met.mrs + if d.act.OpenAct? then [DraftFor(d.met, AutoBranch(card), card.targetBranch)] else [])
      && (forall i, j :: 0 <= i < j < |slice.calls| ==> !SameKind(slice.calls[i].act, slice.calls[j].act))
      && (slice.out.MrReady? ==>
        slice.out.at == AutoBranch(card) && exists k :: Names(slice.forge, k, slice.out.iid, slice.out.at))
  {
    hide Slice, Publish, CodingRun, Apply, Possible;
    var slice := Slice(f, card, w, settings);
    if slice.out.MrReady? || slice.out.Stranded? {
      PublishingSlice(f, card, w, settings);
      var files := CodingRun(f, card, w, settings).value.result.files;
      PublishCalls(w.remote.others(FetchCall, f), card, w, settings, files);
      if slice.out.MrReady? {
        PublishedIsOpen(w.remote.others(FetchCall, f), card, w, settings, files);
      }
      forall d | d in slice.calls
        ensures d.left.mrs ==
          d.met.mrs + if d.act.OpenAct? then [DraftFor(d.met, AutoBranch(card), card.targetBranch)] else []
      {
        PublishingLeavesDrafts(d, card, w, settings, files);
      }
    } else {
      QuietSlice(f, card, w, settings);
    }
  }

  /** A slice that did not come as far as publishing has asked GitLab for nothing but the checkout. */
  lemma QuietSlice(f: Forge, card: TaskCard, w: RepoWorld, settings: Settings)
    ensures
      var slice := Slice(f, card, w, settings);
      !slice.out.MrReady? && !slice.out.Stranded? ==> slice.calls == [] && slice.forge == w.remote.others(FetchCall, f)
  {
    hide PlanGate, Generate, Publish, AssessScope, Originals, Fetched;
  }

  lemma AskKeepsRequests(f: Forge, remote: Remote, call: Call, act: Act)
    requires Polite(remote)
    ensures KeepsRequests(f, Ask(f, remote, call, act).forge)
  {
    hide KeepsRequests, Apply;
    var met := remote.others(call, f);
    assert KeepsRequests(f, met);
    if Possible(met, act) {
      ApplyKeepsRequests(met, act);
      RequestsChain(f, met, Apply(met, act));
    }
  }

  lemma PublishKeepsRequests(f: Forge, card: TaskCard, w: RepoWorld, settings: Settings, files: Batch)
    requires Polite(w.remote)
    ensures KeepsRequests(f, Publish(f, card, w, settings, files).forge)
  {
    hide KeepsRequests, Ask;
    var at := AutoBranch(card);
    var looked := w.remote.others(LookCall, f);
    var branch := EnsureBranch(f, at, settings.forkBase, w.remote);
    var commit := Ask(branch.forge, w.remote, CommitCall, CommitAct(w.coding.locate, at, files));
    var found := w.remote.others(FindCall, commit.forge);
    var request := EnsureRequest(commit.forge, at, card.targetBranch, w.remote);
    assert KeepsRequests(f, looked) && KeepsRequests(commit.forge, found);
    AskKeepsRequests(looked, w.remote, BranchCall, ForkAct(at, settings.forkBase));
    AskKeepsRequests(branch.forge, w.remote, CommitCall, CommitAct(w.coding.locate, at, files));
    AskKeepsRequests(found, w.remote, RequestCall, OpenAct(at, card.targetBranch));
    if branch.forge != looked {
      RequestsChain(f, looked, branch.forge);
    }
    RequestsChain(f, branch.forge, commit.forge);
    if request.forge != found {
      RequestsChain(commit.forge, found, request.forge);
    }
    RequestsChain(f, commit.forge, request.forge);
  }

  lemma SliceKeepsRequests(f: Forge, card: TaskCard, w: RepoWorld, settings: Settings)
    requires Polite(w.remote)
    ensures KeepsRequests(f, Slice(f, card, w, settings).forge)
  {
    hide KeepsRequests, Publish, Generate, PlanGate, AssessScope, Originals;
    var met, slice := w.remote.others(FetchCall, f), Slice(f, card, w, settings);
    assert KeepsRequests(f, met);
    if slice.out.MrReady? || slice.out.Stranded? {
      PublishingSlice(f, card, w, settings);
      var files := CodingRun(f, card, w, settings).value.result.files;
      PublishKeepsRequests(met, card, w, settings, files);
      RequestsChain(f, met, slice.forge);
    }
  }

  /** Whichever call of a run makes a merge request ready: it is the lift, the request is that of the
      card's branch, and the slice published and every gate agreed. */
  lemma LiftIsOurs(f: Forge, card: TaskCard, w: RepoWorld, settings: Settings, d: Done, i: nat)
    requires Numbered(f) && Polite(w.remote)
    requires d in PlanOneRepo(f, card, w, settings).calls && BecameReady(d.met, d.left, i)
    ensures
      var ran := PlanOneRepo(f, card, w, settings);
      && ran.out == Slice(f, card, w, settings).out && ran.out.MrReady?
      && !GateRaises(card, w, settings) && Ready(card, w, settings, ran.out)
      && d.act == LiftAct(card.targetRepo, ran.out.iid, card.reviewer) && d.left == ran.forge
      && d.left.mrs[i].iid == ran.out.iid
      && Ref(d.left.mrs[i].repo, d.left.mrs[i].source) == AutoBranch(card) == ran.out.at
  {
    hide Slice, GateRaises, Ready, KeepsRequests, Lifted;
    var slice := Slice(f, card, w, settings);
    SliceLeavesDrafts(f, card, w, settings);
    SliceKeepsRequests(f, card, w, settings);
    assert d !in slice.calls;
    var k :| Names(slice.forge, k, slice.out.iid, slice.out.at);
    assert KeepsRequests(slice.forge, d.met);
    NumbersNameRequests(f, slice.forge, d.met, k);
    OnlyLifted(d.met, d.left, k, slice.out.iid, slice.out.at, card.reviewer, i);
  }

  lemma NumbersNameRequests(f: Forge, g: Forge, h: Forge, k: nat)
    requires Numbered(f) && KeepsRequests(f, g) && KeepsRequests(g, h) && k < |g.mrs|
    ensures Numbered(h) && k < |h.mrs|
    ensures h.mrs[k].iid == g.mrs[k].iid && h.mrs[k].repo == g.mrs[k].repo && h.mrs[k].source == g.mrs[k].source
  {
    assert h.mrs[k].(open := g.mrs[k].open, draft := g.mrs[k].draft, reviewer := g.mrs[k].reviewer) == g.mrs[k];
  }

  /** Nothing becomes ready but what is lifted. */
  lemma OnlyLifted(f: Forge, f': Forge, k: nat, iid: nat, at: Ref, reviewer: Option<string>, i: nat)
    requires Numbered(f) && k < |f.mrs| && f.mrs[k].iid == iid && Ref(f.mrs[k].repo, f.mrs[k].source) == at
    requires f'.mrs == Lifted(f.mrs, at.repo, iid, reviewer) && BecameReady(f, f', i)
    ensures f'.mrs[i].iid == iid && Ref(f'.mrs[i].repo, f'.mrs[i].source) == at
  {
    assert f.mrs[i].iid == i + 1;
  }

  /** End to end: whichever merge request a run makes ready, it is the one of the card's branch, and the
      run has established everything `EarnedReady` lists. */
  lemma LiftIsEarned(f: Forge, card: TaskCard, w: RepoWorld, settings: Settings, d: Done, i: nat)
    requires Numbered(f) && Polite(w.remote)
    requires d in PlanOneRepo(f, card, w, settings).calls && BecameReady(d.met, d.left, i)
    ensures
      var out, base := PlanOneRepo(f, card, w, settings).out, BaseOf(f, card, w, settings);
      && out.MrReady? && Ref(d.left.mrs[i].repo, d.left.mrs[i].source) == AutoBranch(card)
      && base.Some?
      && EarnedReady(base.value, card, w, settings, out.coding,
                     Written(w.coding.locate, base.value, out.coding.files))
  {
    LiftIsOurs(f, card, w, settings, d, i);
    ReadyIsEarned(f, card, w, settings);
  }

  // ---- The file-count budget ----

  lemma PlannedSnoc(changes: seq<Change>)
    requires changes != []
    ensures Coding.Planned(changes) ==
      Coding.Planned(changes[..|changes| - 1]) + if Last(changes).action == Delete then {} else {Last(changes).path}
  {
    var init, c := changes[..|changes| - 1], Last(changes);
    forall p | p in Coding.Planned(changes)
      ensures p in Coding.Planned(init) || (c.action != Delete && p == c.path)
    {
      var i :| 0 <= i < |changes| && changes[i].action != Delete && changes[i].path == p;
      assert i < |init| ==> init[i] == changes[i];
    }
    forall p | p in Coding.Planned(init)
      ensures p in Coding.Planned(changes)
    {
      var i :| 0 <= i < |init| && init[i].action != Delete && init[i].path == p;
      assert changes[i] == init[i];
    }
    assert changes[|init|] == c;
  }

  lemma {:induction false} PlannedAndDeleted(changes: seq<Change>)
    ensures |Coding.Planned(changes)| + |DeletedPaths(changes)| <= |changes|
  {
    if changes != [] {
      PlannedAndDeleted(changes[..|changes| - 1]);
      PlannedSnoc(changes);
    }
  }

  lemma {:induction false} DistinctCount(files: Batch)
    requires DistinctPaths(files)
    ensures |PathsOf(files)| == |files|
  {
    if files == [] {
      assert PathsOf(files) == {};
    } else {
      var init, p := files[..|files| - 1], Last(files).path;
      DistinctCount(init);
      assert p !in PathsOf(init);
      assert PathsOf(files) == PathsOf(init) + {p} by {
        forall q | q in PathsOf(files)
          ensures q in PathsOf(init) + {p}
        {
          var i :| 0 <= i < |files| && files[i].path == q;
          assert i < |init| ==> init[i] == files[i];
        }
        forall q | q in PathsOf(init)
          ensures q in PathsOf(files)
        {
          var i :| 0 <= i < |init| && init[i].path == q;
          assert files[i] == init[i];
        }
      }
    }
  }

  /** After the plan gate the file-count branch of the scope budget cannot fire: only the number
      of lines can put a merge request over budget. */
  lemma OnlyLinesCanExceed(f: Forge, card: TaskCard, w: RepoWorld, settings: Settings)
    requires Slice(f, card, w, settings).out.MrReady?
    requires DistinctPaths(Slice(f, card, w, settings).out.coding.files)
    ensures
      var scope := Slice(f, card, w, settings).out.scope;
      && scope.changedFiles <= settings.risk.maxChangedFilesMedium
      && (scope.withinBudget <==> scope.diffLines <= settings.maxDiffLinesAuto)
      && (scope.reasons == [] <==> scope.withinBudget)
  {
    var gate := PlanGate(card, w, settings);
    var coding := Slice(f, card, w, settings).out.coding;
    SliceEvidence(f, card, w, settings);
    AutonomousIsSmall(card, PathsIn(gate.changes), settings.risk);
    PlannedAndDeleted(gate.changes);
    DistinctCount(coding.files);
  }

  // ---- Is the branch what was verified? ----

  /** The one commit of a slice: its branch, with the returned files on top of what it met there. */
  lemma CommitOfSlice(f: Forge, card: TaskCard, w: RepoWorld, settings: Settings, d: Done)
    requires Slice(f, card, w, settings).out.MrReady?
    requires d in Slice(f, card, w, settings).calls && d.act.CommitAct?
    ensures
      var at, coding := AutoBranch(card), Slice(f, card, w, settings).out.coding;
      && d.act == CommitAct(w.coding.locate, at, coding.files) && at in d.met.trees
      && d.left.trees == d.met.trees[at := Written(w.coding.locate, d.met.trees[at], coding.files)]
  {
    PublishingSlice(f, card, w, settings);
    PublishCalls(w.remote.others(FetchCall, f), card, w, settings, CodingRun(f, card, w, settings).value.result.files);
    hide Slice, Publish, CodingRun, PlanGate, Generate, Written, AssessScope, Originals;
  }

  lemma SliceCommits(f: Forge, card: TaskCard, w: RepoWorld, settings: Settings)
    requires Slice(f, card, w, settings).out.MrReady?
    ensures exists d :: d in Slice(f, card, w, settings).calls && d.act.CommitAct?
  {
    PublishingSlice(f, card, w, settings);
    PublishCalls(w.remote.others(FetchCall, f), card, w, settings, CodingRun(f, card, w, settings).value.result.files);
    hide Slice, Publish, CodingRun, PlanGate, Generate, Written, AssessScope, Originals;
  }

  /** A slice commits, and the branch then holds exactly the tree the checks ran on, precisely when the branch
      the commit met agreed with the tree fetched earlier on every file this run does not write. */
  lemma BranchIsVerifiedIff(f: Forge, card: TaskCard, w: RepoWorld, settings: Settings)
    requires Slice(f, card, w, settings).out.MrReady?
    ensures exists d :: d in Slice(f, card, w, settings).calls && d.act.CommitAct?
    ensures
      var slice, at, base := Slice(f, card, w, settings), AutoBranch(card), BaseOf(f, card, w, settings);
      && base.Some? && forall d :: d in slice.calls && d.act.CommitAct? ==>
        && at in d.met.trees && at in d.left.trees
        && (d.left.trees[at] == Written(w.coding.locate, base.value, slice.out.coding.files) <==>
          forall file :: !Touches(w.coding.locate, slice.out.coding.files, file) ==>
            Agree(d.met.trees[at], base.value, file))
  {
    var slice, at, base := Slice(f, card, w, settings), AutoBranch(card), BaseOf(f, card, w, settings);
    SliceCommits(f, card, w, settings);
    PublishingSlice(f, card, w, settings);
    hide Slice, Written;
    forall d | d in slice.calls && d.act.CommitAct?
      ensures at in d.met.trees && at in d.left.trees
      ensures
        d.left.trees[at] == Written(w.coding.locate, base.value, slice.out.coding.files) <==>
        forall file :: !Touches(w.coding.locate, slice.out.coding.files, file) ==>
          Agree(d.met.trees[at], base.value, file)
    {
      CommitOfSlice(f, card, w, settings, d);
      SameAfterWriteIff(w.coding.locate, d.met.trees[at], base.value, slice.out.coding.files);
    }
  }

  /** The branch has the same content in both. */
  ghost predicate SameBranch(f: Forge, g: Forge, at: Ref) {
    (at in f.trees <==> at in g.trees) && (at in f.trees ==> f.trees[at] == g.trees[at])
  }

  /** For a branch that this run forked and nobody touched before the commit, what counts is the fork base at
      the fork: another tree than the one fetched, if somebody pushed in between. */
  lemma NewBranchIff(f: Forge, card: TaskCard, w: RepoWorld, settings: Settings, e: Done, d: Done)
    requires Slice(f, card, w, settings).out.MrReady?
    requires var calls := Slice(f, card, w, settings).calls; e in calls && d in calls
    requires e.act.ForkAct? && d.act.CommitAct?
    requires AutoBranch(card) !in e.met.trees && SameBranch(e.left, d.met, AutoBranch(card))
    ensures
      var slice, base := Slice(f, card, w, settings), BaseOf(f, card, w, settings);
      var at, main := AutoBranch(card), ForkBase(card, settings);
      && base.Some? && main in e.met.trees && at in d.left.trees
      && (d.left.trees[at] == Written(w.coding.locate, base.value, slice.out.coding.files) <==>
        forall file :: !Touches(w.coding.locate, slice.out.coding.files, file) ==>
          Agree(e.met.trees[main], base.value, file))
  {
    BranchIsVerifiedIff(f, card, w, settings);
    PublishingSlice(f, card, w, settings);
    PublishCalls(w.remote.others(FetchCall, f), card, w, settings, CodingRun(f, card, w, settings).value.result.files);
    hide Slice, Publish, CodingRun, PlanGate, Generate, Written, AssessScope, Originals;
  }

  /** The plan creates or updates this file. */
  ghost predicate PlanTouches(locate: Locate, changes: seq<Change>, file: File) {
    exists i :: 0 <= i < |changes| && changes[i].action != Delete && locate(changes[i].path) == Some(file)
  }

  lemma CoversTouches(locate: Locate, files: Batch, changes: seq<Change>, file: File)
    requires Covers(locate, files, changes)
    ensures Touches(locate, files, file) <==> PlanTouches(locate, changes, file)
  {
    if i :| 0 <= i < |files| && locate(files[i].path) == Some(file) {
      assert files[i].path in PathsOf(files);
      var j :| 0 <= j < |changes| && changes[j].action != Delete && changes[j].path == files[i].path;
    }
    if j :| 0 <= j < |changes| && changes[j].action != Delete && locate(changes[j].path) == Some(file) {
      assert changes[j].path in Coding.Planned(changes);
      var i :| 0 <= i < |files| && files[i].path == changes[j].path;
    }
  }

  lemma PlanTouchesSame(f: Forge, card: TaskCard, w: RepoWorld, settings: Settings)
    requires Slice(f, card, w, settings).out.MrReady?
    ensures
      var changes := PlanGate(card, w, settings).changes;
      forall file :: Touches(w.coding.locate, Slice(f, card, w, settings).out.coding.files, file) <==>
        PlanTouches(w.coding.locate, changes, file)
  {
    SliceEvidence(f, card, w, settings);
    var out, changes := Slice(f, card, w, settings).out, PlanGate(card, w, settings).changes;
    forall file
      ensures Touches(w.coding.locate, out.coding.files, file) <==> PlanTouches(w.coding.locate, changes, file)
    {
      CoversTouches(w.coding.locate, out.coding.files, changes, file);
    }
  }

  /** When a run makes its merge request ready and nobody touched the branch since its commit, the branch
      holds the tree that was verified exactly if, when the commit came, it agreed with the fetched fork
      base on every file the plan does not write. */
  lemma LiftedBranchIff(f: Forge, card: TaskCard, w: RepoWorld, settings: Settings, d: Done, e: Done, i: nat)
    requires Numbered(f) && Polite(w.remote)
    requires var calls := PlanOneRepo(f, card, w, settings).calls; d in calls && e in calls
    requires d.act.CommitAct? && BecameReady(e.met, e.left, i) && SameBranch(d.left, e.met, AutoBranch(card))
    ensures
      var out, base := PlanOneRepo(f, card, w, settings).out, BaseOf(f, card, w, settings);
      var at, changes := AutoBranch(card), PlanGate(card, w, settings).changes;
      && out.MrReady? && base.Some? && at in d.met.trees && at in e.left.trees
      && Ref(e.left.mrs[i].repo, e.left.mrs[i].source) == at
      && (e.left.trees[at] == Written(w.coding.locate, base.value, out.coding.files) <==>
        forall file :: !PlanTouches(w.coding.locate, changes, file) ==> Agree(d.met.trees[at], base.value, file))
  {
    LiftIsOurs(f, card, w, settings, e, i);
    BranchIsVerifiedIff(f, card, w, settings);
    PlanTouchesSame(f, card, w, settings);
    LiftKeepsTrees(f, card, w, settings, e);
    assert d in Slice(f, card, w, settings).calls;
    hide Slice, Written, PlanTouches, Touches;
  }

  lemma LiftKeepsTrees(f: Forge, card: TaskCard, w: RepoWorld, settings: Settings, e: Done)
    requires e in PlanOneRepo(f, card, w, settings).calls && e.act.LiftAct?
    ensures e.left.trees == e.met.trees
  {
    SliceLeavesDrafts(f, card, w, settings);
    hide Slice, GateRaises, Ready;
  }

  /** Files the plan does not create or update, and so the files it deletes, stay as they were: in the checkout
      that is checked, and on the branch. */
  lemma DeletionsStay(f: Forge, card: TaskCard, w: RepoWorld, settings: Settings, d: Done, file: File)
    requires Slice(f, card, w, settings).out.MrReady?
    requires d in Slice(f, card, w, settings).calls && d.act.CommitAct?
    requires !PlanTouches(w.coding.locate, PlanGate(card, w, settings).changes, file)
    ensures
      var out, base, at := Slice(f, card, w, settings).out, BaseOf(f, card, w, settings), AutoBranch(card);
      && base.Some? && at in d.met.trees && at in d.left.trees
      && Agree(Written(w.coding.locate, base.value, out.coding.files), base.value, file)
      && Agree(d.left.trees[at], d.met.trees[at], file)
  {
    var out, base, at := Slice(f, card, w, settings).out, BaseOf(f, card, w, settings), AutoBranch(card);
    CommitOfSlice(f, card, w, settings, d);
    PublishingSlice(f, card, w, settings);
    PlanTouchesSame(f, card, w, settings);
    WrittenIsLeft(w.coding.locate, base.value, out.coding.files, file);
    WrittenIsLeft(w.coding.locate, d.met.trees[at], out.coding.files, file);
  }

  // ---- Repairing a branch ----

  datatype FixOutcome = FixRaised | NothingToFix | Unfixed(issues: seq<Issue>) | FixCommitted(coding: CodingResult)

  /** The fix loop on a checkout of the branch; what it returns is committed if it is verified. */
  function SelfFix(f: Forge, at: Ref, w: World, remote: Remote, settings: Settings): Ran<FixOutcome> {
    var met, start := remote.others(FetchCall, f), Fetched(f, at, remote);
    if start.None? then Ran(met, [], FixRaised)
    else
      var run := Fix(w, settings.maxCodeIterations, start.value);
      if run.None? then Ran(met, [], FixRaised)
      else
        var coding := run.value.result;
        if coding.files == [] && coding.verified then Ran(met, [], NothingToFix)
        else if coding.issues != [] || !coding.verified then Ran(met, [], Unfixed(coding.issues))
        else
          var commit := Ask(met, remote, CommitCall, CommitAct(w.locate, at, coding.files));
          Ran(commit.forge, commit.calls, if commit.out then FixCommitted(coding) else FixRaised)
  }

  /** A repair makes one commit, to its own branch, and only after checks none of which failed. The branch then
      holds the tree those checks ran on exactly when, outside the files of the last batch, the branch the
      commit met agreed with the tree fetched earlier with the batches before the last one on top; and if
      nobody touched it in between, exactly when those batches bring nothing new outside the last. */
  lemma RepairedBranchIff(f: Forge, at: Ref, w: World, remote: Remote, settings: Settings)
    requires SelfFix(f, at, w, remote, settings).out.FixCommitted?
    ensures
      var ran, start := SelfFix(f, at, w, remote, settings), Fetched(f, at, remote);
      start.Some? && Fix(w, settings.maxCodeIterations, start.value).Some? && |ran.calls| == 1
      && var run, d := Fix(w, settings.maxCodeIterations, start.value).value, ran.calls[0];
      && d.act == CommitAct(w.locate, at, ran.out.coding.files) && Answered(d) && d.left == ran.forge
      && run.batches != [] && !Failing(ran.out.coding.checks)
      && ran.out.coding.iterations >= 1 && ran.out.coding.checks == w.check(ran.out.coding.iterations, run.tree)
      && var earlier := Concat(run.batches[..|run.batches| - 1]);
      && (d.left.trees[at] == run.tree <==>
        forall file :: !Touches(w.locate, ran.out.coding.files, file) ==>
          Agree(d.met.trees[at], Written(w.locate, start.value, earlier), file))
      && (d.met.trees[at] == start.value ==>
        (d.left.trees[at] == run.tree <==> NothingNew(w.locate, start.value, earlier, ran.out.coding.files)))
  {
    var ran, base := SelfFix(f, at, w, remote, settings), Fetched(f, at, remote).value;
    var run := Fix(w, settings.maxCodeIterations, base).value;
    FixedEvidence(w, settings.maxCodeIterations, 1, base, base, [], [], w.check(0, base), Some(run));
    FixCommitIff(w, settings.maxCodeIterations, base, run);
    FixedInTwoParts(w, settings.maxCodeIterations, base, run);
    SameAfterWriteIff(w.locate, ran.calls[0].met.trees[at],
                      Written(w.locate, base, Concat(run.batches[..|run.batches| - 1])), run.result.files);
  }

  // ---- The whole plan, and repeated runs ----

  /** The last repository ended in an exception. */
  predicate Ended(outs: seq<Outcome>) { outs != [] && (Last(outs).Raised? || Last(outs).Stranded?) }

  /** The repositories in order; an exception ends the job after the repositories already done. */
  function PlanRepos(f: Forge, card: TaskCard, repos: seq<Repo>, worlds: Repo -> RepoWorld, settings: Settings)
    : Ran<seq<Outcome>>
  {
    if repos == [] then Ran(f, [], [])
    else
      var done := PlanRepos(f, card, repos[..|repos| - 1], worlds, settings);
      if Ended(done.out) then done
      else
        var next := PlanNext(done.forge, card, Last(repos), worlds, settings);
        Ran(next.forge, done.calls + next.calls, done.out + [next.out])
  }

  function PlanNext(f: Forge, card: TaskCard, repo: Repo, worlds: Repo -> RepoWorld, settings: Settings): Ran<Outcome> {
    PlanOneRepo(f, card.(targetRepo := repo), worlds(repo), settings)
  }

  function ExecutePlan(f: Forge, card: TaskCard, worlds: Repo -> RepoWorld, settings: Settings): Ran<seq<Outcome>> {
    PlanRepos(f, card, card.AllRepos(), worlds, settings)
  }

  // ---- The program over the GitLab object ----

  /** Plan, code in a fresh checkout of the fork base, publish. */
  method RunCodingSlice(gitlab: GitLab, card: TaskCard, w: RepoWorld, settings: Settings) returns (out: Outcome)
    modifies gitlab
    ensures
      var slice := Slice(old(gitlab.State()), card, w, settings);
      gitlab.State() == slice.forge && out == slice.out
  {
    var main := ForkBase(card, settings);
    var ok := gitlab.Meet(w.remote, FetchCall);
    if !ok || main !in gitlab.trees {
      return Raised;
    }
    var checkout := new Checkout(gitlab.trees[main]);
    var gate := PlanGate(card, w, settings);
    if gate.NoPlan? {
      return Raised;
    }
    var risk := ClassifyRisk(card, PathsIn(gate.changes), settings.risk);
    if risk.level == Blocked {
      return RiskBlocked;
    }
    if risk.humanPreapprovalRequired || risk.redTeamRequired {
      return NeedsHuman;
    }
    var originals := Originals(w, checkout.tree, gate.changes);
    var result := checkout.GenerateChanges(gate.changes, w.coding, settings.maxCodeIterations);
    if result.None? {
      return Raised;
    }
    var coding := result.value;
    if coding.issues != [] {
      return SelfCheckFailed(coding.issues);
    }
    var scope := AssessScope(w, originals, coding.files, coding.deletions, settings);
    var iid := PublishTo(gitlab, card, w, settings, coding.files);
    if iid.None? {
      return Stranded(AutoBranch(card));
    }
    out := MrReady(iid.value, AutoBranch(card), coding, scope);
  }

  method BranchFor(gitlab: GitLab, at: Ref, from: Branch, remote: Remote) returns (ok: bool)
    modifies gitlab
    ensures
      var done := EnsureBranch(old(gitlab.State()), at, from, remote);
      gitlab.State() == done.forge && ok == done.out
  {
    ok := gitlab.Meet(remote, LookCall);
    if ok && at !in gitlab.trees {
      ok := gitlab.Meet(remote, BranchCall);
      if ok {
        ok := gitlab.CreateBranch(at, from);
      }
    }
  }

  method RequestFor(gitlab: GitLab, at: Ref, target: Branch, remote: Remote) returns (iid: Option<nat>)
    modifies gitlab
    ensures
      var done := EnsureRequest(old(gitlab.State()), at, target, remote);
      gitlab.State() == done.forge && iid == done.out
  {
    var ok := gitlab.Meet(remote, FindCall);
    if !ok {
      return None;
    }
    iid := gitlab.FindOpenMr(at);
    if iid.None? {
      ok := gitlab.Meet(remote, RequestCall);
      if !ok {
        return None;
      }
      var number := gitlab.CreateDraftMr(at, target);
      iid := Some(number);
    }
  }

  method PublishTo(gitlab: GitLab, card: TaskCard, w: RepoWorld, settings: Settings, files: Batch)
    returns (iid: Option<nat>)
    modifies gitlab
    ensures
      var done := Publish(old(gitlab.State()), card, w, settings, files);
      gitlab.State() == done.forge && iid == done.out
  {
    var at := AutoBranch(card);
    var ok := BranchFor(gitlab, at, settings.forkBase, w.remote);
    if !ok {
      return None;
    }
    ok := gitlab.Meet(w.remote, CommitCall);
    if !ok {
      return None;
    }
    ok := gitlab.CommitFiles(w.coding.locate, at, files);
    if !ok {
      return None;
    }
    iid := RequestFor(gitlab, at, card.targetBranch, w.remote);
  }

  /** One repository: the slice, then the gates decide whether Draft is lifted. */
  method PlanRepo(gitlab: GitLab, card: TaskCard, w: RepoWorld, settings: Settings) returns (out: Outcome)
    modifies gitlab
    ensures
      var ran := PlanOneRepo(old(gitlab.State()), card, w, settings);
      gitlab.State() == ran.forge && out == ran.out
  {
    hide Slice, GateRaises, Ready, Lifted;
    out := RunCodingSlice(gitlab, card, w, settings);
    if !out.MrReady? {
      return;
    }
    if GateRaises(card, w, settings) {
      return Stranded(out.at);
    }
    if Ready(card, w, settings, out) {
      var ok := gitlab.Meet(w.remote, LiftCall);
      if !ok {
        return Stranded(out.at);
      }
      gitlab.MarkMrReady(card.targetRepo, out.iid, card.reviewer);
    }
  }

  /** Repair the branch in a fresh checkout of it. */
  method RunSelfFix(gitlab: GitLab, at: Ref, w: World, remote: Remote, settings: Settings) returns (out: FixOutcome)
    modifies gitlab
    ensures
      var ran := SelfFix(old(gitlab.State()), at, w, remote, settings);
      gitlab.State() == ran.forge && out == ran.out
  {
    var ok := gitlab.Meet(remote, FetchCall);
    if !ok || at !in gitlab.trees {
      return FixRaised;
    }
    var checkout := new Checkout(gitlab.trees[at]);
    var result := checkout.RunFixLoop(w, settings.maxCodeIterations);
    if result.None? {
      return FixRaised;
    }
    var coding := result.value;
    if coding.files == [] && coding.verified {
      return NothingToFix;
    }
    if coding.issues != [] || !coding.verified {
      return Unfixed(coding.issues);
    }
    ok := gitlab.Meet(remote, CommitCall);
    if !ok {
      return FixRaised;
    }
    ok := gitlab.CommitFiles(w.locate, at, coding.files);
    return if ok then FixCommitted(coding) else FixRaised;
  }

  lemma PlanReposNext(f: Forge, card: TaskCard, repos: seq<Repo>, worlds: Repo -> RepoWorld, settings: Settings, k: nat)
    requires k < |repos| && !Ended(PlanRepos(f, card, repos[..k], worlds, settings).out)
    ensures
      var done := PlanRepos(f, card, repos[..k], worlds, settings);
      var next := PlanNext(done.forge, card, repos[k], worlds, settings);
      PlanRepos(f, card, repos[..k + 1], worlds, settings)
      == Ran(next.forge, done.calls + next.calls, done.out + [next.out])
  {
    assert repos[..k + 1][..k] == repos[..k];
  }

  /** Every repository of the card, in order. */
  method Execute(gitlab: GitLab, card: TaskCard, worlds: Repo -> RepoWorld, settings: Settings)
    returns (results: seq<Outcome>)
    modifies gitlab
    ensures
      var done := ExecutePlan(old(gitlab.State()), card, worlds, settings);
      gitlab.State() == done.forge && results == done.out
  {
    results := [];
    var repos := card.AllRepos();
    for k := 0 to |repos|
      invariant
        var done := PlanRepos(old(gitlab.State()), card, repos[..k], worlds, settings);
        gitlab.State() == done.forge && results == done.out
      invariant !Ended(results)
    {
      PlanReposNext(old(gitlab.State()), card, repos, worlds, settings, k);
      var out := PlanRepo(gitlab, card.(targetRepo := repos[k]), worlds(repos[k]), settings);
      results := results + [out];
      if Ended(results) {
        RaisedEnds(old(gitlab.State()), card, repos, worlds, settings, k + 1);
        return;
      }
    }
    assert repos[..|repos|] == repos;
  }

  lemma {:induction false} RaisedEnds(f: Forge, card: TaskCard, repos: seq<Repo>, worlds: Repo -> RepoWorld,
          settings: Settings, k: nat)
    requires k <= |repos| && Ended(PlanRepos(f, card, repos[..k], worlds, settings).out)
    ensures PlanRepos(f, card, repos, worlds, settings) == PlanRepos(f, card, repos[..k], worlds, settings)
    decreases |repos|
  {
    if k < |repos| {
      var init := repos[..|repos| - 1];
      assert init[..k] == repos[..k];
      RaisedEnds(f, card, init, worlds, settings, k);
    } else {
      assert repos[..k] == repos;
    }
  }
}
