/** Small deliveries, worked out, at the edges of what is proved in Delivery and DeliveryRuns
    (app/orchestrator.py:247-317, 513-568). */
module DeliveryLimits {
  import opened Wrappers
  import opened Contracts
  import opened SandboxIo
  import opened Risk
  import opened Coding
  import opened GitLabHost
  import opened Delivery
  import opened DeliveryRuns

  const CARD := TaskCard("T-1", Research, "r", [], [], "dev", "", "", ["app"], Low, None, false, [])
  const SETTINGS := Settings(RiskSettings([], [], 5, 15), [], "main", 500, 3)
  const MAIN := Ref("r", "main")
  const BRANCH := Ref("r", "auto-task-T-1")
  const GREEN: Checks := map["test" := Passed]
  const FINE := Opinion(Pass, [])
  const BAD := Opinion(Fail, [])

  /** Others are at work just before the branch is forked and just before the request is opened. */
  function Busy(branch: Forge -> Forge, request: Forge -> Forge): Remote {
    Remote(
      (call: Call, f: Forge) =>
        if call.BranchCall? then branch(f) else if call.RequestCall? then request(f) else f,
      None)
  }

  const QUIET := Busy((f: Forge) => f, (f: Forge) => f)

  /** A model that writes "1" into one file, checks that pass, and this review. For texts made of line ends
      only, and for "1", the number of lines is the length. */
  function Job(changes: seq<Change>, path: string, remote: Remote, review: Opinion): RepoWorld {
    RepoWorld(
      Some(changes),
      World(Target, (n: nat) => [Edit(path, "1")], (n: nat, tree: Tree) => GREEN, (tree: Tree, p: string) => true),
      (text: string) => |text|,
      (was: string, now: string) => if was == now then 0 else |was| + |now|,
      (text: string) => |text|,
      Some(review), Some(FINE), remote)
  }

  /** A small plan that writes one file. */
  ghost predicate OneWrite(changes: seq<Change>, path: string) {
    && |changes| <= 5 && Coding.Planned(changes) == {path} && IsPlain(path)
    && forall i :: 0 <= i < |changes| ==> IsPlain(changes[i].path)
  }

  function ForgeWith(tree: Tree): Forge { Forge(map[MAIN := tree], [], [], []) }

  lemma LowRisk(paths: seq<string>)
    requires |paths| <= 5
    ensures Level(CARD, paths, SETTINGS.risk) == Low
  {
    var signals := Signals(CARD, paths, SETTINGS.risk);
    assert Areas(CARD) * HIGH_AREAS == {} by {
      forall a | a in Areas(CARD)
        ensures a !in HIGH_AREAS
      {
        assert a == Lower("app") && |a| == 3 && a[0] == 'a';
        assert "db"[0] == 'd';
      }
    }
    assert forall i :: 0 <= i < 7 ==> signals[i] == Low;
    JoinIsLeast(signals);
  }

  lemma PlansIt(changes: seq<Change>, path: string, remote: Remote, review: Opinion)
    requires OneWrite(changes, path)
    ensures PlanGate(CARD, Job(changes, path, remote, review), SETTINGS) == Gate(Low, changes)
  {
    hide Level, IsPlain, Target;
    forall i | 0 <= i < |changes|
      ensures Target(changes[i].path).Some?
    {
      PlainIsFile(changes[i].path);
    }
    LowRisk(PathsIn(changes));
  }

  /** What the job produces. */
  function Produced(changes: seq<Change>, path: string): CodingResult {
    CodingResult([Edit(path, "1")], DeletedPaths(changes), [], true, 1, GREEN)
  }

  lemma WritesOne(path: string, base: Tree)
    requires IsPlain(path)
    ensures Written(Target, base, [Edit(path, "1")]) == base[[path] := "1"]
  {
    PlainIsFile(path);
    WriteOne(Job([], path, QUIET, FINE).coding, base, Edit(path, "1"), [path]);
  }

  /** One attempt, and the file is written. */
  lemma WritesIt(changes: seq<Change>, path: string, remote: Remote, review: Opinion, base: Tree)
    requires OneWrite(changes, path)
    ensures Generate(Job(changes, path, remote, review).coding, changes, 3, 1, base, [], map[])
      == Some(Run(Produced(changes, path), base[[path] := "1"]))
  {
    hide Target, Written, Writable, Covers, IsPlain;
    var w, e := Job(changes, path, remote, review).coding, Edit(path, "1");
    PlainIsFile(path);
    WriteOne(w, base, e, [path]);
    PassesSelfCheck(changes, path);
    assert "test" in GREEN && !Failing(GREEN) && Runnable(GREEN);
  }

  lemma PassesSelfCheck(changes: seq<Change>, path: string)
    requires OneWrite(changes, path)
    ensures SelfCheck(Target, [Edit(path, "1")], changes) == []
  {
    hide Target, IsPlain, SelfCheck;
    PlainIsFile(path);
    assert !Blank("1") by {
      assert "1"[0] == '1';
    }
    assert [Edit(path, "1")][0].path == path && PathsOf([Edit(path, "1")]) == {path};
    SelfCheckIff(Target, [Edit(path, "1")], changes);
  }

  function ScopeOf(w: RepoWorld, base: Tree, path: string): ScopeVerdict
    requires w.plan.Some?
  {
    AssessScope(w, Originals(w, base, w.plan.value), [Edit(path, "1")], DeletedPaths(w.plan.value), SETTINGS)
  }

  lemma GatesAgree(changes: seq<Change>, path: string, remote: Remote)
    ensures
      var w := Job(changes, path, remote, FINE);
      !GatesRaise(CARD, Low, changes, w, SETTINGS) && !GatesBlock(CARD, Low, changes, w, SETTINGS)
    ensures
      var w := Job(changes, path, remote, BAD);
      !GatesRaise(CARD, Low, changes, w, SETTINGS) && GatesBlock(CARD, Low, changes, w, SETTINGS)
  {
    assert !MergeBlocked(FINE) && MergeBlocked(BAD);
  }

  /** A run that publishes and is within budget: its request is lifted exactly if the review agrees. */
  lemma RunsAs(f: Forge, changes: seq<Change>, path: string, branch: Forge -> Forge, request: Forge -> Forge,
               review: Opinion)
    requires OneWrite(changes, path) && review in {FINE, BAD} && MAIN in f.trees
    requires
      var w := Job(changes, path, Busy(branch, request), review);
      ScopeOf(w, f.trees[MAIN], path).withinBudget && Publish(f, CARD, w, SETTINGS, [Edit(path, "1")]).out.Some?
    ensures
      var w := Job(changes, path, Busy(branch, request), review);
      var done, ran := Publish(f, CARD, w, SETTINGS, [Edit(path, "1")]), PlanOneRepo(f, CARD, w, SETTINGS);
      && ran.out == MrReady(done.out.value, BRANCH, Produced(changes, path), ScopeOf(w, f.trees[MAIN], path))
      && ran.forge.trees == done.forge.trees && ran.forge.forks == done.forge.forks
      && ran.forge.mrs == if review == FINE then Lifted(done.forge.mrs, "r", done.out.value, None) else done.forge.mrs
  {
    hide Generate, AssessScope, Originals, PlanGate, Publish, Slice, GatesBlock, GatesRaise, Level, Lifted, OneWrite;
    var w := Job(changes, path, Busy(branch, request), review);
    PlansIt(changes, path, w.remote, review);
    WritesIt(changes, path, w.remote, review, f.trees[MAIN]);
    GatesAgree(changes, path, w.remote);
    SliceIs(f, w, changes, Run(Produced(changes, path), f.trees[MAIN][[path] := "1"]));
    assert AutoBranch(CARD) == BRANCH;
  }

  lemma SliceIs(f: Forge, w: RepoWorld, changes: seq<Change>, run: Run)
    requires MAIN in f.trees && w.remote.others(FetchCall, f) == f && w.remote.refused == None
    requires PlanGate(CARD, w, SETTINGS) == Gate(Low, changes)
    requires Generate(w.coding, changes, 3, 1, f.trees[MAIN], [], map[]) == Some(run) && run.result.issues == []
    requires Publish(f, CARD, w, SETTINGS, run.result.files).out.Some?
    ensures
      var done, slice := Publish(f, CARD, w, SETTINGS, run.result.files), Slice(f, CARD, w, SETTINGS);
      var originals := Originals(w, f.trees[MAIN], changes);
      var scope := AssessScope(w, originals, run.result.files, run.result.deletions, SETTINGS);
      && slice.forge == done.forge && slice.calls == done.calls
      && slice.out == MrReady(done.out.value, AutoBranch(CARD), run.result, scope)
  {
    hide Generate, AssessScope, Originals, PlanGate, Publish;
  }

  // ---- Publishing ----

  const DRAFT := MergeRequest(1, "r", "auto-task-T-1", "dev", true, true, None)
  const READY := DRAFT.(draft := false)

  /** Branch and commit, with `branch` at work in between. */
  function Pushed(f: Forge, branch: Forge -> Forge, path: string): Forge
    requires BRANCH in f.trees || MAIN in branch(f).trees
  {
    var branched := if BRANCH in f.trees then f else WithBranch(branch(f), BRANCH, "main");
    WithCommit(Target, branched, BRANCH, [Edit(path, "1")])
  }

  lemma PublishesIt(f: Forge, changes: seq<Change>, path: string, branch: Forge -> Forge, request: Forge -> Forge,
                    review: Opinion)
    requires BRANCH in f.trees || MAIN in branch(f).trees
    ensures
      var done := Publish(f, CARD, Job(changes, path, Busy(branch, request), review), SETTINGS, [Edit(path, "1")]);
      var pushed := Pushed(f, branch, path);
      var k, met := FirstOpen(pushed.mrs, BRANCH), request(pushed);
      if k < |pushed.mrs| then
        done.forge == pushed && done.out == Some(pushed.mrs[k].iid)
      else
        done.forge == met.(mrs := met.mrs + [DraftFor(met, BRANCH, "dev")]) && done.out == Some(|met.mrs| + 1)
  {
    hide Written, FirstOpen, Target;
    assert AutoBranch(CARD) == BRANCH;
  }

  lemma PushedTrees(f: Forge, branch: Forge -> Forge, path: string)
    requires IsPlain(path) && (BRANCH in f.trees || MAIN in branch(f).trees)
    ensures
      var from := if BRANCH in f.trees then f else branch(f);
      var start := if BRANCH in from.trees then from.trees[BRANCH] else from.trees[MAIN];
      && Pushed(f, branch, path).trees == from.trees[BRANCH := start[[path] := "1"]]
      && Pushed(f, branch, path).mrs == from.mrs
  {
    var from := if BRANCH in f.trees then f else branch(f);
    WritesOne(path, if BRANCH in from.trees then from.trees[BRANCH] else from.trees[MAIN]);
    hide Written, Target;
  }

  lemma QuietPublish(f: Forge, changes: seq<Change>, path: string, review: Opinion)
    requires IsPlain(path) && MAIN in f.trees && f.mrs in {[], [READY]}
    ensures
      var done := Publish(f, CARD, Job(changes, path, QUIET, review), SETTINGS, [Edit(path, "1")]);
      var start := f.trees[if BRANCH in f.trees then BRANCH else MAIN];
      && done.out == Some(1) && done.forge.trees == f.trees[BRANCH := start[[path] := "1"]]
      && done.forge.mrs == if f.mrs == [] then [DRAFT] else f.mrs
  {
    PublishesIt(f, changes, path, (g: Forge) => g, (g: Forge) => g, review);
    PushedTrees(f, (g: Forge) => g, path);
    assert FirstOpen([], BRANCH) == 0 && FirstOpen([READY], BRANCH) == 0;
    hide Publish, Pushed, Target, IsPlain, Job, FirstOpen;
  }

  /** A run that has GitLab to itself and is within budget. */
  lemma QuietRun(f: Forge, changes: seq<Change>, path: string, review: Opinion)
    requires OneWrite(changes, path) && review in {FINE, BAD} && MAIN in f.trees && f.mrs in {[], [READY]}
    requires ScopeOf(Job(changes, path, QUIET, review), f.trees[MAIN], path).withinBudget
    ensures
      var w := Job(changes, path, QUIET, review);
      var ran, start := PlanOneRepo(f, CARD, w, SETTINGS), f.trees[if BRANCH in f.trees then BRANCH else MAIN];
      && ran.out == MrReady(1, BRANCH, Produced(changes, path), ScopeOf(w, f.trees[MAIN], path))
      && ran.forge.trees == f.trees[BRANCH := start[[path] := "1"]]
      && ran.forge.mrs == if review == FINE then [READY] else if f.mrs == [] then [DRAFT] else [READY]
  {
    hide PlanOneRepo, Publish, ScopeOf, Target, IsPlain, Produced, Job, FirstOpen;
    QuietPublish(f, changes, path, review);
    RunsAs(f, changes, path, (g: Forge) => g, (g: Forge) => g, review);
    assert Lifted([DRAFT], "r", 1, None) == Lifted([READY], "r", 1, None) == [READY];
  }

  // ---- What the scope check counts ----

  lemma OneDiff(w: RepoWorld, was: string -> string, e: Edit, deletions: seq<string>)
    ensures DiffLines(w, was, [e], deletions) == w.diff(was(e.path), e.content) + RemovedLines(w.lines, was, deletions)
  {
    assert [e][..0] == [] && Last([e]) == e;
    assert ChangedLines(w.diff, was, [e][..0]) == 0;
  }

  lemma CountsIt(path: string, action: Action, remote: Remote, review: Opinion, base: Tree)
    requires IsPlain(path) && action != Delete
    ensures
      var w, text := Job([Change(path, action)], path, remote, review), TextIn(Target, base, path);
      && OneWrite([Change(path, action)], path) && DeletedPaths([Change(path, action)]) == []
      && ScopeOf(w, base, path).diffLines == w.diff(if |text| <= MAX_READ_BYTES then text else "", "1")
      && ScopeOf(w, base, path).changedFiles == 1
      && DiffLines(w, p => TextIn(Target, base, p), [Edit(path, "1")], []) == w.diff(text, "1")
    ensures
      var scope := ScopeOf(Job([Change(path, action)], path, remote, review), base, path);
      scope.withinBudget <==> scope.diffLines <= 500
  {
    hide Target, IsPlain;
    var changes := [Change(path, action)];
    var w := Job(changes, path, remote, review);
    assert changes[..0] == [] && Last(changes) == Change(path, action) && DeletedPaths(changes[..0]) == [];
    assert changes[0] == Change(path, action) && Coding.Planned(changes) == {path};
    assert PathsIn(changes) == [path] && path in PathsIn(changes);
    var originals := Originals(w, base, changes);
    assert originals.Keys == {path};
    OneDiff(w, p => if p in originals then originals[p] else "", Edit(path, "1"), []);
    OneDiff(w, p => TextIn(Target, base, p), Edit(path, "1"), []);
  }

  // ---- Files nobody checked ----

  /** With GitLab to itself and an empty fork base, a plan for one new file adds it to whatever the branch holds. */
  lemma PlannedOnce(f: Forge, path: string, review: Opinion, branch: Tree)
    requires IsPlain(path) && review in {FINE, BAD} && f.mrs in {[], [READY]}
    requires MAIN in f.trees && f.trees[MAIN] == map[] && branch == if BRANCH in f.trees then f.trees[BRANCH] else map[]
    ensures
      var ran := PlanOneRepo(f, CARD, Job([Change(path, Create)], path, QUIET, review), SETTINGS);
      && ran.out.MrReady? && ran.out.coding == Produced([Change(path, Create)], path)
      && ran.forge.trees == f.trees[BRANCH := branch[[path] := "1"]]
      && ran.forge.mrs == if review == FINE then [READY] else if f.mrs == [] then [DRAFT] else [READY]
  {
    hide PlanOneRepo, ScopeOf, OneWrite, Target, IsPlain, QUIET;
    CountsIt(path, Create, QUIET, review, map[]);
    assert "" != "1";
    QuietRun(f, [Change(path, Create)], path, review);
  }

  /** The card is planned twice, for file "a" and then for file "b". The second time its merge request is
      lifted with checks that ran on "b" alone, while its branch holds both. */
  lemma RerunKeepsOldFile()
    ensures
      var f1 := PlanOneRepo(ForgeWith(map[]), CARD, Job([Change("a", Create)], "a", QUIET, FINE), SETTINGS).forge;
      var ran := PlanOneRepo(f1, CARD, Job([Change("b", Create)], "b", QUIET, FINE), SETTINGS);
      && ran.out.MrReady? && BRANCH in ran.forge.trees && ran.forge.mrs == [READY]
      && ran.forge.trees[BRANCH] == map[["a"] := "1", ["b"] := "1"]
      && Written(Target, map[], ran.out.coding.files) == map[["b"] := "1"]
  {
    hide PlanOneRepo, Written, Job, Target;
    PlannedOnce(ForgeWith(map[]), "a", FINE, map[]);
    var f1 := PlanOneRepo(ForgeWith(map[]), CARD, Job([Change("a", Create)], "a", QUIET, FINE), SETTINGS).forge;
    PlannedOnce(f1, "b", FINE, map[["a"] := "1"]);
    WritesOne("b", map[]);
  }

  /** After the lift the card is planned again and the review rejects the result: it is on the branch all the
      same, and the merge request stays ready. */
  lemma RejectedWorkStaysReady()
    ensures
      var f1 := PlanOneRepo(ForgeWith(map[]), CARD, Job([Change("a", Create)], "a", QUIET, FINE), SETTINGS).forge;
      var f2 := PlanOneRepo(f1, CARD, Job([Change("b", Create)], "b", QUIET, BAD), SETTINGS).forge;
      && f1.mrs == [READY] && BRANCH in f1.trees && f1.trees[BRANCH] == map[["a"] := "1"]
      && f2.mrs == [READY] && BRANCH in f2.trees && f2.trees[BRANCH] == map[["a"] := "1", ["b"] := "1"]
  {
    hide PlanOneRepo, Job;
    PlannedOnce(ForgeWith(map[]), "a", FINE, map[]);
    var f1 := PlanOneRepo(ForgeWith(map[]), CARD, Job([Change("a", Create)], "a", QUIET, FINE), SETTINGS).forge;
    PlannedOnce(f1, "b", BAD, map[["a"] := "1"]);
  }

  /** Somebody pushes file "b" to the fork base. */
  function PushToMain(f: Forge): Forge { f.(trees := f.trees[MAIN := map[["b"] := "2"]]) }

  /** The fork base moves between the checkout and the fork: the branch is new, and yet it holds a file the checks
      never saw. */
  lemma MovedBaseIsForked()
    ensures
      var w := Job([Change("a", Create)], "a", Busy(PushToMain, (f: Forge) => f), FINE);
      var ran := PlanOneRepo(ForgeWith(map[]), CARD, w, SETTINGS);
      && BRANCH !in ForgeWith(map[]).trees && ran.out.MrReady? && ran.forge.mrs == [READY]
      && BRANCH in ran.forge.trees && ran.forge.trees[BRANCH] == map[["a"] := "1", ["b"] := "2"]
      && Written(Target, map[], ran.out.coding.files) == map[["a"] := "1"]
  {
    hide PlanOneRepo, Publish, ScopeOf, Pushed, OneWrite, Target, Written;
    var f, changes := ForgeWith(map[]), [Change("a", Create)];
    CountsIt("a", Create, Busy(PushToMain, (f: Forge) => f), FINE, map[]);
    assert "" != "1";
    PushedTrees(f, PushToMain, "a");
    PublishesIt(f, changes, "a", PushToMain, (f: Forge) => f, FINE);
    RunsAs(f, changes, "a", PushToMain, (f: Forge) => f, FINE);
    assert Lifted([DRAFT], "r", 1, None) == [READY];
    WritesOne("a", map[]);
    assert map[["b"] := "2"][["a"] := "1"] == map[["a"] := "1", ["b"] := "2"];
  }

  // ---- A deletion that never happens ----

  const REPLACE := [Change("a", Create), Change("b", Delete)]

  lemma ReplaceMeans()
    ensures OneWrite(REPLACE, "a") && DeletedPaths(REPLACE) == ["b"] && PathsIn(REPLACE) == ["a", "b"]
  {
    assert REPLACE[..1] == [Change("a", Create)] && REPLACE[..1][..0] == [];
    assert DeletedPaths(REPLACE[..1][..0]) == [] && DeletedPaths(REPLACE[..1]) == [];
    assert REPLACE[0] == Change("a", Create) && Coding.Planned(REPLACE) == {"a"};
  }

  lemma ReplaceTexts(base: Tree)
    requires base == map[["b"] := "\n"]
    ensures TextIn(Target, base, "a") == "" && TextIn(Target, base, "b") == "\n"
  {
    PlainIsFile("a");
    PlainIsFile("b");
    hide Target;
    assert ["a"][0] != ["b"][0];
  }

  lemma CountsReplace(base: Tree)
    requires base == map[["b"] := "\n"]
    ensures ScopeOf(Job(REPLACE, "a", QUIET, FINE), base, "a").withinBudget
  {
    var w := Job(REPLACE, "a", QUIET, FINE);
    ReplaceMeans();
    ReplaceTexts(base);
    hide Target, REPLACE, TextIn;
    assert PathsIn(REPLACE)[0] == "a" && PathsIn(REPLACE)[1] == "b";
    var originals := Originals(w, base, REPLACE);
    assert originals["a"] == "" && originals["b"] == "\n";
    OneDiff(w, p => if p in originals then originals[p] else "", Edit("a", "1"), ["b"]);
    assert ["b"][..0] == [] && Last(["b"]) == "b";
    assert RemovedLines(w.lines, p => if p in originals then originals[p] else "", ["b"][..0]) == 0;
    assert "" != "1";
  }

  /** A plan that replaces file "b" by file "a" is checked with both in place, and lifted; its branch holds both. */
  lemma DeletedFileStays()
    ensures
      var base: Tree := map[["b"] := "\n"];
      var ran := PlanOneRepo(ForgeWith(base), CARD, Job(REPLACE, "a", QUIET, FINE), SETTINGS);
      && ran.out.MrReady? && ran.out.coding.deletions == ["b"] && ran.forge.mrs == [READY]
      && BRANCH in ran.forge.trees && ran.forge.trees[BRANCH] == map[["a"] := "1", ["b"] := "\n"]
      && Written(Target, base, ran.out.coding.files) == map[["a"] := "1", ["b"] := "\n"]
  {
    hide PlanOneRepo, ScopeOf, OneWrite, Target, Written, REPLACE, QUIET;
    var base: Tree := map[["b"] := "\n"];
    ReplaceMeans();
    CountsReplace(base);
    QuietRun(ForgeWith(base), REPLACE, "a", FINE);
    PlainIsFile("a");
    WritesOne("a", base);
    assert base[["a"] := "1"] == map[["a"] := "1", ["b"] := "\n"];
  }

  // ---- Two runs at once ----

  function SamePlan(): RepoWorld { Job([Change("a", Create)], "a", QUIET, FINE) }

  /** A second plan of the same card runs from start to end. */
  function WholePlan(f: Forge): Forge { PlanOneRepo(f, CARD, SamePlan(), SETTINGS).forge }

  /** Between looking for an open request and opening one, a second run of the same plan opens its own: the branch
      has two open requests, both ready. */
  lemma TwoRunsTwoRequests()
    ensures
      var w := Job([Change("a", Create)], "a", Busy((f: Forge) => f, WholePlan), FINE);
      var ran := PlanOneRepo(ForgeWith(map[]), CARD, w, SETTINGS);
      && ran.forge.mrs == [READY, READY.(iid := 2)]
      && OneOpenPerBranch(ForgeWith(map[])) && !OneOpenPerBranch(ran.forge)
  {
    hide PlanOneRepo, Publish, ScopeOf, OneWrite, Target, Written, Pushed, WholePlan;
    var f, changes := ForgeWith(map[]), [Change("a", Create)];
    CountsIt("a", Create, Busy((f: Forge) => f, WholePlan), FINE, map[]);
    assert "" != "1";
    PushedTrees(f, (g: Forge) => g, "a");
    var pushed := Pushed(f, (g: Forge) => g, "a");
    SecondPlan(pushed);
    PublishesIt(f, changes, "a", (g: Forge) => g, WholePlan, FINE);
    RunsAs(f, changes, "a", (g: Forge) => g, WholePlan, FINE);
    var second := DRAFT.(iid := 2);
    assert Lifted([READY, second], "r", 2, None) == [READY, READY.(iid := 2)];
    var left := PlanOneRepo(f, CARD, Job(changes, "a", Busy((f: Forge) => f, WholePlan), FINE), SETTINGS).forge;
    assert left.mrs[0].open && left.mrs[1].open;
  }

  lemma SecondPlan(pushed: Forge)
    requires MAIN in pushed.trees && pushed.trees[MAIN] == map[] && pushed.mrs == []
    requires BRANCH in pushed.trees && pushed.trees[BRANCH] == map[["a"] := "1"]
    ensures WholePlan(pushed).mrs == [READY]
  {
    hide PlanOneRepo;
    PlannedOnce(pushed, "a", FINE, map[["a"] := "1"]);
  }

  // ---- A file too long to be read ----

  const LONG: string := seq(1_000_001, (i: nat) => '\n')

  /** A million lines are replaced by one. The long file counts as empty, one line counts as changed, and
      the merge request is lifted with a diff two thousand times over budget. */
  lemma UnreadFileIsFree()
    ensures
      var base: Tree := map[["a"] := LONG];
      var w := Job([Change("a", Update)], "a", QUIET, FINE);
      var ran := PlanOneRepo(ForgeWith(base), CARD, w, SETTINGS);
      && ran.out.MrReady? && ran.forge.mrs == [READY] && ran.out.scope.diffLines == 1
      && DiffLines(w, p => TextIn(Target, base, p), ran.out.coding.files, ran.out.coding.deletions) == 1_000_002
      && SETTINGS.maxDiffLinesAuto == 500
  {
    hide PlanOneRepo, OneWrite, ScopeOf, DiffLines, LONG, QUIET, Target;
    var base: Tree := map[["a"] := LONG];
    PlainIsFile("a");
    LongText();
    CountsIt("a", Update, QUIET, FINE, base);
    QuietRun(ForgeWith(base), [Change("a", Update)], "a", FINE);
  }

  lemma LongText()
    ensures |LONG| == 1_000_001 && LONG != "1" && "" != "1"
  {
  }
}
