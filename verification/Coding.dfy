/** The two bounded repair loops over a checkout: generate-and-check for a plan, and
    fix-and-check for an existing branch (app/coding.py). The question throughout is whether
    the evidence "verified" is about the content that is handed over to be committed. */
module Coding {
  import opened Wrappers
  import opened Contracts
  import opened RepoPaths
  import opened SandboxIo

  type File = seq<string>            // components below the checkout root
  type Tree = map<File, string>
  datatype Edit = Edit(path: string, content: string)
  type Batch = seq<Edit>             // a JSON object in its own order
  type Locate = string -> Option<File>

  type Checks = map<string, Status>

  /** The outside world: what the model answers at each attempt, what the checks report on a
      tree at each attempt (0 is the run before any attempt; checks do not write), and which
      writes the file system accepts. The loops do not depend on how a path names a file, so
      that is a parameter too: `locate` gives no file for a path that is not safe. */
  datatype World = World(
    locate: Locate,
    answer: nat -> Batch,
    check: (nat, Tree) -> Checks,
    accepts: (Tree, string) -> bool)

  datatype Issue =
    | MissingPlanned(paths: set<string>)
    | Unplanned(paths: set<string>)
    | EmptyFiles(paths: set<string>)
    | UnsafePaths(paths: set<string>)
    | ChecksFailing
    | FixFailed

  datatype CodingResult = CodingResult(
    files: Batch, deletions: seq<string>, issues: seq<Issue>, verified: bool, iterations: int, checks: Checks)

  /** How paths name files in a checkout. */
  function Target(path: string): Option<File> {
    if IsSafeRepoPath(path) then Some(FileOf(path)) else None
  }

  // ---- Batches and trees ----

  function PathsOf(batch: Batch): set<string> {
    set i | 0 <= i < |batch| :: batch[i].path
  }

  /** Keys of a JSON object are distinct. */
  ghost predicate DistinctPaths(batch: Batch) {
    forall i, j :: 0 <= i < j < |batch| ==> batch[i].path != batch[j].path
  }

  /** The tree after writing a batch in order; unsafe paths are skipped. */
  function Written(locate: Locate, tree: Tree, batch: Batch): Tree {
    if batch == [] then tree
    else
      var before, file := Written(locate, tree, batch[..|batch| - 1]), locate(Last(batch).path);
      if file.Some? then before[file.value := Last(batch).content] else before
  }

  /** The content a batch leaves in `file`, if it touches it: that of the last edit naming it. */
  function Left(locate: Locate, batch: Batch, file: File): Option<string> {
    if batch == [] then None
    else if locate(Last(batch).path) == Some(file) then Some(Last(batch).content)
    else Left(locate, batch[..|batch| - 1], file)
  }

  ghost predicate Touches(locate: Locate, batch: Batch, file: File) {
    exists i :: 0 <= i < |batch| && locate(batch[i].path) == Some(file)
  }

  /** Whether every write of the batch goes through. The root itself is a directory. */
  predicate Writable(world: World, tree: Tree, batch: Batch) {
    if batch == [] then true
    else
      var init, e := batch[..|batch| - 1], Last(batch);
      && Writable(world, tree, init)
      && (world.locate(e.path).Some? ==>
        world.locate(e.path).value != [] && world.accepts(Written(world.locate, tree, init), e.path))
  }

  lemma {:induction false} WrittenIsLeft(locate: Locate, tree: Tree, batch: Batch, file: File)
    ensures Left(locate, batch, file).Some? <==> Touches(locate, batch, file)
    ensures Left(locate, batch, file).Some? ==>
      file in Written(locate, tree, batch) && Written(locate, tree, batch)[file] == Left(locate, batch, file).value
    ensures Left(locate, batch, file).None? ==> Agree(Written(locate, tree, batch), tree, file)
  {
    if batch != [] {
      var init := batch[..|batch| - 1];
      WrittenIsLeft(locate, tree, init, file);
      if i :| 0 <= i < |init| && locate(init[i].path) == Some(file) {
        assert locate(batch[i].path) == Some(file);
      }
      if i :| 0 <= i < |batch| && locate(batch[i].path) == Some(file) {
        assert i < |init| ==> locate(init[i].path) == Some(file);
      }
    }
  }

  /** The content left in a file is that of the last edit that names it. */
  lemma {:induction false} LeftIsLast(locate: Locate, batch: Batch, i: nat)
    requires i < |batch| && locate(batch[i].path).Some?
    requires forall j :: i < j < |batch| ==> locate(batch[j].path) != locate(batch[i].path)
    ensures Left(locate, batch, locate(batch[i].path).value) == Some(batch[i].content)
  {
    if i < |batch| - 1 {
      LeftIsLast(locate, batch[..|batch| - 1], i);
    }
  }

  /** A batch can be written exactly if every edit that names a file names one below the root, and is accepted on the
      tree the edits before it leave. */
  lemma {:induction false} WritableMeans(world: World, tree: Tree, batch: Batch)
    ensures Writable(world, tree, batch) <==>
      forall i :: 0 <= i < |batch| && world.locate(batch[i].path).Some? ==>
        world.locate(batch[i].path).value != []
        && world.accepts(Written(world.locate, tree, batch[..i]), batch[i].path)
  {
    if batch != [] {
      var init := batch[..|batch| - 1];
      WritableMeans(world, tree, init);
      assert forall i :: 0 <= i < |init| ==> init[..i] == batch[..i];
      hide Written;
    }
  }

  /** Two trees agree on one file. */
  ghost predicate Agree(s: Tree, t: Tree, file: File) {
    (file in s <==> file in t) && (file in s ==> s[file] == t[file])
  }

  lemma TreesEqual(s: Tree, t: Tree)
    requires forall file :: Agree(s, t, file)
    ensures s == t
  {
    assert forall file :: file in s <==> file in t by {
      forall file
        ensures file in s <==> file in t
      {
        assert Agree(s, t, file);
      }
    }
    assert s.Keys == t.Keys;
    forall file | file in s
      ensures s[file] == t[file]
    {
      assert Agree(s, t, file);
    }
  }

  /** Writing the same batch on two trees gives the same tree exactly when they already agree
      on every file the batch does not touch. */
  lemma SameAfterWriteIff(locate: Locate, s: Tree, t: Tree, batch: Batch)
    ensures Written(locate, s, batch) == Written(locate, t, batch) <==>
      forall file :: !Touches(locate, batch, file) ==> Agree(s, t, file)
  {
    if forall file :: !Touches(locate, batch, file) ==> Agree(s, t, file) {
      forall file
        ensures Agree(Written(locate, s, batch), Written(locate, t, batch), file)
      {
        WrittenIsLeft(locate, s, batch, file);
        WrittenIsLeft(locate, t, batch, file);
        assert !Touches(locate, batch, file) ==> Agree(s, t, file);
      }
      TreesEqual(Written(locate, s, batch), Written(locate, t, batch));
    }
    if Written(locate, s, batch) == Written(locate, t, batch) {
      forall file | !Touches(locate, batch, file)
        ensures Agree(s, t, file)
      {
        WrittenIsLeft(locate, s, batch, file);
        WrittenIsLeft(locate, t, batch, file);
      }
    }
  }

  /** Whatever only the earlier batch touches was already in the tree, with that content. */
  ghost predicate NothingNew(locate: Locate, tree: Tree, earlier: Batch, later: Batch) {
    forall file :: Touches(locate, earlier, file) && !Touches(locate, later, file) ==>
      file in tree && Left(locate, earlier, file) == Some(tree[file])
  }

  /** A later batch hides an earlier one exactly when the earlier one brings nothing new outside
      the files of the later one. */
  lemma HidesIff(locate: Locate, tree: Tree, earlier: Batch, later: Batch)
    ensures Written(locate, Written(locate, tree, earlier), later) == Written(locate, tree, later) <==>
      NothingNew(locate, tree, earlier, later)
  {
    SameAfterWriteIff(locate, Written(locate, tree, earlier), tree, later);
    forall file
      ensures Agree(Written(locate, tree, earlier), tree, file) <==>
        (Touches(locate, earlier, file) ==> file in tree && Left(locate, earlier, file) == Some(tree[file]))
    {
      WrittenIsLeft(locate, tree, earlier, file);
    }
  }

  lemma WrittenConcat(locate: Locate, tree: Tree, a: Batch, b: Batch)
    ensures Written(locate, tree, a + b) == Written(locate, Written(locate, tree, a), b)
  {
    if b == [] {
      assert a + b == a;
    } else {
      assert (a + b)[..|a + b| - 1] == a + b[..|b| - 1];
      WrittenConcat(locate, tree, a, b[..|b| - 1]);
    }
  }

  // ---- Self-check ----

  function Planned(changes: seq<Change>): set<string> {
    set i | 0 <= i < |changes| && changes[i].action != Delete :: changes[i].path
  }

  function DeletedPaths(changes: seq<Change>): seq<string> {
    if changes == [] then []
    else DeletedPaths(changes[..|changes| - 1]) + (if Last(changes).action == Delete then [Last(changes).path] else [])
  }

  /** The deletions handed over are the planned ones, in order: what a plan deletes is what its parts delete. */
  lemma {:induction false} DeletionsArePlanned(changes: seq<Change>, more: seq<Change>, c: Change)
    ensures DeletedPaths([c]) == if c.action == Delete then [c.path] else []
    ensures DeletedPaths(changes + more) == DeletedPaths(changes) + DeletedPaths(more)
  {
    assert [c][..0] == [];
    if more == [] {
      assert changes + more == changes;
    } else {
      var init := more[..|more| - 1];
      DeletionsArePlanned(changes, init, c);
      assert (changes + more)[..|changes + more| - 1] == changes + init;
    }
  }

  function SelfCheck(locate: Locate, files: Batch, changes: seq<Change>): seq<Issue> {
    var planned, produced := Planned(changes), PathsOf(files);
    var empty := set i | 0 <= i < |files| && Blank(files[i].content) :: files[i].path;
    var unsafe := set p | p in produced && locate(p).None?;
    (if planned - produced != {} then [MissingPlanned(planned - produced)] else [])
    + (if produced - planned != {} then [Unplanned(produced - planned)] else [])
    + (if empty != {} then [EmptyFiles(empty)] else [])
    + (if unsafe != {} then [UnsafePaths(unsafe)] else [])
  }

  /** What passing the self-check means: exactly the planned files, none blank, every path safe. */
  ghost predicate Covers(locate: Locate, files: Batch, changes: seq<Change>) {
    && PathsOf(files) == Planned(changes)
    && forall i :: 0 <= i < |files| ==> !Blank(files[i].content) && locate(files[i].path).Some?
  }

  lemma SelfCheckIff(locate: Locate, files: Batch, changes: seq<Change>)
    ensures SelfCheck(locate, files, changes) == [] <==> Covers(locate, files, changes)
  {
    var produced := PathsOf(files);
    var empty := set i | 0 <= i < |files| && Blank(files[i].content) :: files[i].path;
    var unsafe := set p | p in produced && locate(p).None?;
    forall i | 0 <= i < |files|
      ensures files[i].path in produced
      ensures Blank(files[i].content) ==> files[i].path in empty
      ensures locate(files[i].path).None? ==> files[i].path in unsafe
    {
    }
  }

  ghost predicate IsPlanned(changes: seq<Change>, p: string) {
    exists i :: 0 <= i < |changes| && changes[i].path == p && changes[i].action != Delete
  }

  ghost predicate IsProduced(files: Batch, p: string) {
    exists i :: 0 <= i < |files| && files[i].path == p
  }

  ghost predicate IsEmptied(files: Batch, p: string) {
    exists i :: 0 <= i < |files| && files[i].path == p && Blank(files[i].content)
  }

  /** The issue names exactly the paths it is about, and there are some. */
  ghost predicate IsFound(locate: Locate, files: Batch, changes: seq<Change>, issue: Issue) {
    match issue
    case MissingPlanned(paths) =>
      paths != {} && forall p :: p in paths <==> IsPlanned(changes, p) && !IsProduced(files, p)
    case Unplanned(paths) =>
      paths != {} && forall p :: p in paths <==> IsProduced(files, p) && !IsPlanned(changes, p)
    case EmptyFiles(paths) => paths != {} && forall p :: p in paths <==> IsEmptied(files, p)
    case UnsafePaths(paths) => paths != {} && forall p :: p in paths <==> IsProduced(files, p) && locate(p).None?
    case ChecksFailing => false
    case FixFailed => false
  }

  /** The self-check reports exactly the issues there are. */
  lemma SelfCheckReports(locate: Locate, files: Batch, changes: seq<Change>, issue: Issue)
    ensures issue in SelfCheck(locate, files, changes) <==> IsFound(locate, files, changes, issue)
  {
    var planned, produced := Planned(changes), PathsOf(files);
    var empty := set i | 0 <= i < |files| && Blank(files[i].content) :: files[i].path;
    var unsafe := set q | q in produced && locate(q).None?;
    forall p
      ensures p in planned <==> IsPlanned(changes, p)
      ensures p in produced <==> IsProduced(files, p)
      ensures p in empty <==> IsEmptied(files, p)
    {
    }
    match issue {
      case MissingPlanned(paths) => assert IsFound(locate, files, changes, issue) ==> paths == planned - produced;
      case Unplanned(paths) => assert IsFound(locate, files, changes, issue) ==> paths == produced - planned;
      case EmptyFiles(paths) => assert IsFound(locate, files, changes, issue) ==> paths == empty;
      case UnsafePaths(paths) => assert IsFound(locate, files, changes, issue) ==> paths == unsafe;
      case ChecksFailing =>
      case FixFailed =>
    }
    hide IsPlanned, IsProduced, IsEmptied, Planned, PathsOf;
  }

  /** Two batches that cover one plan touch the same files, even when the plan spells one file in
      several ways. */
  lemma SamePlanSameFiles(locate: Locate, a: Batch, b: Batch, changes: seq<Change>)
    requires Covers(locate, a, changes) && Covers(locate, b, changes)
    ensures forall file :: Touches(locate, a, file) ==> Touches(locate, b, file)
  {
    forall file | Touches(locate, a, file)
      ensures Touches(locate, b, file)
    {
      var i :| 0 <= i < |a| && locate(a[i].path) == Some(file);
      assert a[i].path in PathsOf(b);
      var j :| 0 <= j < |b| && b[j].path == a[i].path;
    }
  }

  // ---- Checks ----

  predicate Failing(checks: Checks) {
    exists name :: name in checks && checks[name] in {Failed, TimedOut}
  }

  predicate SomePassed(checks: Checks) {
    exists name :: name in checks && checks[name] == Passed
  }

  predicate Runnable(checks: Checks) {
    exists name :: name in checks && checks[name] in {Passed, Failed, TimedOut}
  }

  /** One attempt: what the model answered is either not usable, or cannot be written, or still
      fails the checks, or is accepted. */
  datatype Attempt = Rejected | Unwritten | Red(tree: Tree, checks: Checks) | Green(tree: Tree, checks: Checks)

  function Try(world: World, usable: bool, attempt: nat, tree: Tree): Attempt {
    var answer := world.answer(attempt);
    if !usable then Rejected
    else if !Writable(world, tree, answer) then Unwritten
    else
      var now := Written(world.locate, tree, answer);
      var checks := world.check(attempt, now);
      if Failing(checks) then Red(now, checks) else Green(now, checks)
  }

  // ---- The generation loop, as a function of the attempt ----

  datatype Run = Run(result: CodingResult, tree: Tree)

  function TryPlan(world: World, changes: seq<Change>, attempt: nat, tree: Tree): Attempt {
    Try(world, SelfCheck(world.locate, world.answer(attempt), changes) == [], attempt, tree)
  }

  /** Attempts `attempt..limit`. No value means an I/O error ended the job. */
  function Generate(world: World, changes: seq<Change>, limit: int, attempt: nat, tree: Tree, files: Batch,
          last: Checks): Option<Run>
    decreases limit - attempt
  {
    if attempt > limit then Some(Run(Exhausted(world.locate, changes, files, limit, last), tree))
    else
      var answer := world.answer(attempt);
      var t := TryPlan(world, changes, attempt, tree);
      if t.Rejected? then Generate(world, changes, limit, attempt + 1, tree, answer, last)
      else if t.Unwritten? then None
      else if t.Red? then Generate(world, changes, limit, attempt + 1, t.tree, answer, t.checks)
      else Some(AcceptedRun(changes, attempt, answer, t))
  }

  function AcceptedRun(changes: seq<Change>, attempt: nat, answer: Batch, t: Attempt): Run
    requires t.Green?
  {
    Run(CodingResult(answer, DeletedPaths(changes), [], Runnable(t.checks), attempt, t.checks), t.tree)
  }

  function Exhausted(locate: Locate, changes: seq<Change>, files: Batch, limit: int, last: Checks): CodingResult {
    var issues := SelfCheck(locate, files, changes);
    CodingResult(files, DeletedPaths(changes), if issues == [] then [ChecksFailing] else issues, false, limit, last)
  }

  /** What a caller may rely on when generation reports no issue. */
  ghost predicate Evidence(world: World, changes: seq<Change>, base: Tree, run: Run) {
    var r := run.result;
    && run.tree == Written(world.locate, base, r.files)
    && Covers(world.locate, r.files, changes)
    && r.iterations >= 1 && r.checks == world.check(r.iterations, run.tree)
    && !Failing(r.checks)
    && (r.verified <==> SomePassed(r.checks))
    && r.deletions == DeletedPaths(changes)
  }

  ghost predicate Trustworthy(world: World, changes: seq<Change>, base: Tree, out: Option<Run>) {
    out.Some? ==>
      && (out.value.result.issues == [] ==> Evidence(world, changes, base, out.value))
      && (out.value.result.issues != [] ==> !out.value.result.verified)
  }

  /** The tree the loop has reached is the base, or the base with one covering batch. */
  ghost predicate OneBatchFromBase(locate: Locate, changes: seq<Change>, base: Tree, tree: Tree) {
    tree == base || exists b :: Covers(locate, b, changes) && tree == Written(locate, base, b)
  }

  lemma OverlayFromBase(locate: Locate, changes: seq<Change>, base: Tree, tree: Tree, answer: Batch)
    requires OneBatchFromBase(locate, changes, base, tree) && Covers(locate, answer, changes)
    ensures Written(locate, tree, answer) == Written(locate, base, answer)
    ensures OneBatchFromBase(locate, changes, base, Written(locate, tree, answer))
  {
    if tree != base {
      var b :| Covers(locate, b, changes) && tree == Written(locate, base, b);
      SamePlanSameFiles(locate, b, answer, changes);
      HidesIff(locate, base, b, answer);
    }
  }

  /** One attempt keeps the shape of the tree, and an accepted one carries evidence. */
  lemma TriedEvidence(world: World, changes: seq<Change>, attempt: nat, base: Tree, tree: Tree)
    requires attempt >= 1 && OneBatchFromBase(world.locate, changes, base, tree)
    ensures
      var answer := world.answer(attempt);
      var t := TryPlan(world, changes, attempt, tree);
      && (t.Red? ==> OneBatchFromBase(world.locate, changes, base, t.tree))
      && (t.Green? ==> Evidence(world, changes, base, AcceptedRun(changes, attempt, answer, t)))
  {
    var answer := world.answer(attempt);
    SelfCheckIff(world.locate, answer, changes);
    if SelfCheck(world.locate, answer, changes) == [] {
      OverlayFromBase(world.locate, changes, base, tree, answer);
    }
  }

  /** Whatever earlier attempts wrote, a run without issues leaves the base overlaid with exactly
      the returned files, and its evidence is about that tree; a run with issues is never
      verified. */
  lemma {:induction false} GeneratedEvidence(world: World, changes: seq<Change>, limit: int, attempt: nat,
                                             base: Tree, tree: Tree, files: Batch, last: Checks, out: Option<Run>)
    requires attempt >= 1 && OneBatchFromBase(world.locate, changes, base, tree)
    requires out == Generate(world, changes, limit, attempt, tree, files, last)
    ensures Trustworthy(world, changes, base, out)
    decreases limit - attempt
  {
    if attempt <= limit {
      var answer := world.answer(attempt);
      var t := TryPlan(world, changes, attempt, tree);
      TriedEvidence(world, changes, attempt, base, tree);
      if t.Rejected? {
        GeneratedEvidence(world, changes, limit, attempt + 1, base, tree, answer, last, out);
      } else if t.Red? {
        GeneratedEvidence(world, changes, limit, attempt + 1, base, t.tree, answer, t.checks, out);
      }
    }
  }

  // ---- Which attempt generation ends with ----

  /** No check failed or ran out of time. */
  ghost predicate NoneRed(checks: Checks) {
    forall name :: name in checks ==> checks[name] != Failed && checks[name] != TimedOut
  }

  /** Attempt `n` covers the plan, and on the base with its batch no check fails. */
  ghost predicate Succeeds(world: World, changes: seq<Change>, base: Tree, n: nat) {
    Covers(world.locate, world.answer(n), changes)
    && NoneRed(world.check(n, Written(world.locate, base, world.answer(n))))
  }

  /** What an attempt comes to, on whatever tree the attempts before it left. */
  lemma AttemptMeans(world: World, changes: seq<Change>, attempt: nat, base: Tree, tree: Tree)
    requires OneBatchFromBase(world.locate, changes, base, tree)
    ensures
      var answer, t := world.answer(attempt), TryPlan(world, changes, attempt, tree);
      var now := Written(world.locate, base, answer);
      && (t.Rejected? <==> !Covers(world.locate, answer, changes))
      && (t.Unwritten? <==> Covers(world.locate, answer, changes) && !Writable(world, tree, answer))
      && (t.Green? <==> Succeeds(world, changes, base, attempt) && Writable(world, tree, answer))
      && (t.Green? || t.Red? ==> t.tree == now && t.checks == world.check(attempt, now))
      && (t.Red? ==> OneBatchFromBase(world.locate, changes, base, t.tree))
  {
    var answer := world.answer(attempt);
    SelfCheckIff(world.locate, answer, changes);
    if SelfCheck(world.locate, answer, changes) == [] {
      OverlayFromBase(world.locate, changes, base, tree, answer);
    }
    hide Written, Covers, Writable;
  }

  /** What generation returns, from some attempt on. */
  ghost predicate EndsAsTold(world: World, changes: seq<Change>, limit: int, from: nat, base: Tree, files: Batch,
                             out: Option<Run>)
  {
    out.Some? ==>
      var r := out.value.result;
      && (r.issues == [] ==>
        && from <= r.iterations <= limit && Succeeds(world, changes, base, r.iterations)
        && (forall m :: from <= m < r.iterations ==> !Succeeds(world, changes, base, m))
        && r.files == world.answer(r.iterations))
      && (r.issues != [] ==>
        && r.iterations == limit && (forall m :: from <= m <= limit ==> !Succeeds(world, changes, base, m))
        && r.files == (if from <= limit then world.answer(limit) else files)
        && (r.issues == [ChecksFailing] <==> Covers(world.locate, r.files, changes)))
  }

  lemma {:induction false} GenerationEnds(world: World, changes: seq<Change>, limit: int, attempt: nat,
                                          base: Tree, tree: Tree, files: Batch, last: Checks)
    requires attempt >= 1 && OneBatchFromBase(world.locate, changes, base, tree)
    ensures EndsAsTold(world, changes, limit, attempt, base, files,
                       Generate(world, changes, limit, attempt, tree, files, last))
    decreases limit - attempt
  {
    hide TryPlan, OneBatchFromBase, Covers, SelfCheck, Succeeds, Written;
    if attempt > limit {
      SelfCheckIff(world.locate, files, changes);
      ChecksAreNoSelfCheck(world.locate, files, changes);
    } else {
      var answer, t := world.answer(attempt), TryPlan(world, changes, attempt, tree);
      AttemptMeans(world, changes, attempt, base, tree);
      if t.Rejected? {
        RejectedFails(world, changes, base, attempt);
        GenerationEnds(world, changes, limit, attempt + 1, base, tree, answer, last);
      } else if t.Red? {
        RedFails(world, changes, base, attempt, tree);
        GenerationEnds(world, changes, limit, attempt + 1, base, t.tree, answer, t.checks);
      }
    }
  }

  /** The last attempt whose batch covers the plan, or 0 if there is none. */
  ghost predicate IsLastTried(world: World, changes: seq<Change>, limit: int, m: nat) {
    && (m > 0 ==> m <= limit && Covers(world.locate, world.answer(m), changes))
    && forall k: nat :: m < k <= limit ==> !Covers(world.locate, world.answer(k), changes)
  }

  /** What the checks say of attempt `n` on the base; nothing before the first attempt. */
  ghost function ChecksOf(world: World, base: Tree, n: nat): Checks {
    if n == 0 then map[] else world.check(n, Written(world.locate, base, world.answer(n)))
  }

  /** A run that gives up reports the checks of the last covering attempt. */
  lemma {:induction false} GenerationReports(world: World, changes: seq<Change>, limit: int, attempt: nat,
                                             base: Tree, tree: Tree, files: Batch, last: Checks, m: nat)
    requires attempt >= 1 && OneBatchFromBase(world.locate, changes, base, tree)
    requires IsLastTried(world, changes, limit, m)
    requires m < attempt ==> last == ChecksOf(world, base, m)
    ensures
      var out := Generate(world, changes, limit, attempt, tree, files, last);
      out.Some? && out.value.result.issues != [] ==> out.value.result.checks == ChecksOf(world, base, m)
    decreases limit - attempt
  {
    hide TryPlan, OneBatchFromBase, Covers, SelfCheck, Succeeds, Written;
    if attempt <= limit {
      var answer, t := world.answer(attempt), TryPlan(world, changes, attempt, tree);
      AttemptMeans(world, changes, attempt, base, tree);
      if t.Rejected? {
        GenerationReports(world, changes, limit, attempt + 1, base, tree, answer, last, m);
      } else if t.Red? {
        GenerationReports(world, changes, limit, attempt + 1, base, t.tree, answer, t.checks, m);
      }
    }
  }

  lemma ChecksAreNoSelfCheck(locate: Locate, files: Batch, changes: seq<Change>)
    ensures SelfCheck(locate, files, changes) != [ChecksFailing]
  {
    assert ChecksFailing !in SelfCheck(locate, files, changes);
  }

  lemma RejectedFails(world: World, changes: seq<Change>, base: Tree, n: nat)
    requires !Covers(world.locate, world.answer(n), changes)
    ensures !Succeeds(world, changes, base, n)
  {
  }

  lemma RedFails(world: World, changes: seq<Change>, base: Tree, n: nat, tree: Tree)
    requires OneBatchFromBase(world.locate, changes, base, tree) && TryPlan(world, changes, n, tree).Red?
    ensures !Succeeds(world, changes, base, n)
  {
    AttemptMeans(world, changes, n, base, tree);
    hide Succeeds;
  }

  /** Generation stops at the first attempt that covers the plan and fails no check, and gives up only after the last.
      It ends in an I/O error only if a covering batch cannot be written. */
  lemma GenerationFinds(world: World, changes: seq<Change>, limit: int, base: Tree)
    ensures
      var out := Generate(world, changes, limit, 1, base, [], map[]);
      && (out.Some? ==>
        var r := out.value.result;
        && (r.issues == [] <==> exists n: nat :: 1 <= n <= limit && Succeeds(world, changes, base, n))
        && (r.issues == [] ==>
          && 1 <= r.iterations <= limit && Succeeds(world, changes, base, r.iterations)
          && (forall m :: 1 <= m < r.iterations ==> !Succeeds(world, changes, base, m))
          && r.files == world.answer(r.iterations))
        && (r.issues != [] ==>
          && r.iterations == limit && r.files == (if limit >= 1 then world.answer(limit) else [])
          && (r.issues == [ChecksFailing] <==> Covers(world.locate, r.files, changes))
          && (forall m: nat :: IsLastTried(world, changes, limit, m) ==> r.checks == ChecksOf(world, base, m))))
      && (out.None? ==> exists n: nat, tree :: CannotWrite(world, changes, limit, base, n, tree))
  {
    GenerationEnds(world, changes, limit, 1, base, base, [], map[]);
    UnwrittenMeans(world, changes, limit, 1, base, base, [], map[]);
    forall m: nat | IsLastTried(world, changes, limit, m)
      ensures
        var out := Generate(world, changes, limit, 1, base, [], map[]);
        out.Some? && out.value.result.issues != [] ==> out.value.result.checks == ChecksOf(world, base, m)
    {
      GenerationReports(world, changes, limit, 1, base, base, [], map[], m);
    }
    hide Generate, Succeeds, Covers, CannotWrite, IsLastTried, ChecksOf;
  }

  /** A batch that covers the plan cannot be written on a tree the loop can be at. */
  ghost predicate CannotWrite(world: World, changes: seq<Change>, limit: int, base: Tree, n: nat, tree: Tree) {
    && 1 <= n <= limit && OneBatchFromBase(world.locate, changes, base, tree)
    && Covers(world.locate, world.answer(n), changes) && !Writable(world, tree, world.answer(n))
  }

  lemma {:induction false} UnwrittenMeans(world: World, changes: seq<Change>, limit: int, attempt: nat,
                                          base: Tree, tree: Tree, files: Batch, last: Checks)
    requires attempt >= 1 && OneBatchFromBase(world.locate, changes, base, tree)
    ensures Generate(world, changes, limit, attempt, tree, files, last).None? ==>
      exists n: nat, at :: CannotWrite(world, changes, limit, base, n, at)
    decreases limit - attempt
  {
    hide TryPlan, OneBatchFromBase, Covers, SelfCheck, Succeeds, Written, Writable;
    if attempt <= limit {
      var answer, t := world.answer(attempt), TryPlan(world, changes, attempt, tree);
      AttemptMeans(world, changes, attempt, base, tree);
      if t.Rejected? {
        UnwrittenMeans(world, changes, limit, attempt + 1, base, tree, answer, last);
      } else if t.Red? {
        UnwrittenMeans(world, changes, limit, attempt + 1, base, t.tree, answer, t.checks);
      } else if t.Unwritten? {
        assert CannotWrite(world, changes, limit, base, attempt, tree);
      }
    }
  }

  // ---- The fix loop, as a function of the attempt ----

  datatype FixRun = FixRun(result: CodingResult, tree: Tree, batches: seq<Batch>)

  /** Every batch in order. */
  function Concat(batches: seq<Batch>): Batch {
    if batches == [] then [] else Concat(batches[..|batches| - 1]) + Last(batches)
  }

  predicate AllSafe(locate: Locate, batch: Batch) {
    forall i :: 0 <= i < |batch| ==> locate(batch[i].path).Some?
  }

  /** Attempts `attempt..limit`; `batches` are the ones written so far. */
  function FixFrom(world: World, limit: int, attempt: nat, tree: Tree, batches: seq<Batch>, files: Batch,
          last: Checks): Option<FixRun>
    decreases limit - attempt
  {
    if attempt > limit then Some(FixRun(CodingResult(files, [], [FixFailed], false, limit, last), tree, batches))
    else
      var answer := world.answer(attempt);
      var t := Try(world, answer != [] && AllSafe(world.locate, answer), attempt, tree);
      if t.Rejected? then FixFrom(world, limit, attempt + 1, tree, batches, answer, last)
      else if t.Unwritten? then None
      else if t.Red? then FixFrom(world, limit, attempt + 1, t.tree, batches + [answer], answer, t.checks)
      else Some(Fixed(attempt, answer, t, batches))
  }

  function Fixed(attempt: nat, answer: Batch, t: Attempt, batches: seq<Batch>): FixRun
    requires t.Green?
  {
    FixRun(CodingResult(answer, [], [], true, attempt, t.checks), t.tree, batches + [answer])
  }

  function Fix(world: World, limit: int, base: Tree): Option<FixRun> {
    var checks := world.check(0, base);
    if !Failing(checks) then Some(FixRun(CodingResult([], [], [], Runnable(checks), 0, checks), base, []))
    else FixFrom(world, limit, 1, base, [], [], checks)
  }

  ghost predicate FixEvidence(world: World, base: Tree, run: FixRun) {
    && run.batches != [] && run.result.files == Last(run.batches)
    && run.tree == Written(world.locate, base, Concat(run.batches))
    && run.result.iterations >= 1
    && run.result.verified && run.result.checks == world.check(run.result.iterations, run.tree)
    && !Failing(run.result.checks)
  }

  ghost predicate FixTrustworthy(world: World, base: Tree, out: Option<FixRun>) {
    out.Some? ==>
      && (out.value.result.issues == [] ==> FixEvidence(world, base, out.value))
      && (out.value.result.issues != [] ==> out.value.result.issues == [FixFailed] && !out.value.result.verified)
  }

  lemma ConcatSnoc(locate: Locate, base: Tree, batches: seq<Batch>, answer: Batch)
    ensures Written(locate, base, Concat(batches + [answer]))
      == Written(locate, Written(locate, base, Concat(batches)), answer)
  {
    assert (batches + [answer])[..|batches|] == batches;
    WrittenConcat(locate, base, Concat(batches), answer);
  }

  /** A repaired tree is the base with every written batch, in order, and the checks that did
      not fail ran on that tree; running out of attempts gives issues and no verification. */
  lemma {:induction false} FixedEvidence(world: World, limit: int, attempt: nat, base: Tree, tree: Tree,
                                         batches: seq<Batch>, files: Batch, last: Checks, out: Option<FixRun>)
    requires attempt >= 1 && tree == Written(world.locate, base, Concat(batches))
    requires out == FixFrom(world, limit, attempt, tree, batches, files, last)
    ensures FixTrustworthy(world, base, out)
    decreases limit - attempt
  {
    if attempt <= limit {
      var answer := world.answer(attempt);
      var t := Try(world, answer != [] && AllSafe(world.locate, answer), attempt, tree);
      ConcatSnoc(world.locate, base, batches, answer);
      if t.Rejected? {
        FixedEvidence(world, limit, attempt + 1, base, tree, batches, answer, last, out);
      } else if t.Red? {
        FixedEvidence(world, limit, attempt + 1, base, t.tree, batches + [answer], answer, t.checks, out);
      }
    }
  }

  /** The repaired tree is the returned files on top of whatever the batches before them left. */
  lemma FixedInTwoParts(world: World, limit: int, base: Tree, run: FixRun)
    requires Fix(world, limit, base) == Some(run) && run.result.issues == [] && run.batches != []
    ensures
      var earlier := Concat(run.batches[..|run.batches| - 1]);
      run.tree == Written(world.locate, Written(world.locate, base, earlier), run.result.files)
  {
    FixedEvidence(world, limit, 1, base, base, [], [], world.check(0, base), Some(run));
    WrittenConcat(world.locate, base, Concat(run.batches[..|run.batches| - 1]), run.result.files);
  }

  /** The caller commits only the returned files. That reproduces the tree the checks ran on
      exactly when the earlier batches bring nothing new outside those files. */
  lemma FixCommitIff(world: World, limit: int, base: Tree, run: FixRun)
    requires Fix(world, limit, base) == Some(run) && run.result.issues == [] && run.batches != []
    ensures run.tree == Written(world.locate, base, run.result.files) <==>
      NothingNew(world.locate, base, Concat(run.batches[..|run.batches| - 1]), run.result.files)
  {
    FixedInTwoParts(world, limit, base, run);
    HidesIff(world.locate, base, Concat(run.batches[..|run.batches| - 1]), run.result.files);
  }

  // ---- Which attempt a repair ends with ----

  /** Something to write, all of it at safe paths. */
  ghost predicate IsUsable(world: World, b: Batch) {
    |b| > 0 && forall i :: 0 <= i < |b| ==> world.locate(b[i].path).Some?
  }

  /** The usable answers among the first `n`, in order. */
  ghost function UsableUpTo(world: World, n: nat): seq<Batch> {
    if n == 0 then []
    else UsableUpTo(world, n - 1) + if IsUsable(world, world.answer(n)) then [world.answer(n)] else []
  }

  /** The tree after the first `n` attempts. */
  ghost function RepairedBy(world: World, base: Tree, n: nat): Tree {
    Written(world.locate, base, Concat(UsableUpTo(world, n)))
  }

  /** Attempt `n` is usable, and no check fails with it on top of the attempts before it. */
  ghost predicate Repairs(world: World, base: Tree, n: nat) {
    IsUsable(world, world.answer(n)) && NoneRed(world.check(n, RepairedBy(world, base, n)))
  }

  lemma RepairMeans(world: World, base: Tree, n: nat)
    requires n >= 1
    ensures
      var prev, answer := RepairedBy(world, base, n - 1), world.answer(n);
      var t := Try(world, answer != [] && AllSafe(world.locate, answer), n, prev);
      && (t.Rejected? <==> !IsUsable(world, answer))
      && (t.Unwritten? <==> IsUsable(world, answer) && !Writable(world, prev, answer))
      && (t.Green? <==> Repairs(world, base, n) && Writable(world, prev, answer))
      && (t.Green? || t.Red? ==>
        t.tree == RepairedBy(world, base, n) && t.checks == world.check(n, RepairedBy(world, base, n)))
      && (t.Rejected? ==> RepairedBy(world, base, n) == prev && UsableUpTo(world, n) == UsableUpTo(world, n - 1))
      && (!t.Rejected? ==> UsableUpTo(world, n) == UsableUpTo(world, n - 1) + [answer])
  {
    ConcatSnoc(world.locate, base, UsableUpTo(world, n - 1), world.answer(n));
    assert UsableUpTo(world, n - 1) + [] == UsableUpTo(world, n - 1);
    hide Written, Writable, Concat;
  }

  /** What a repair returns, from some attempt on. */
  ghost predicate RepairEnds(world: World, limit: int, from: nat, base: Tree, files: Batch, out: Option<FixRun>)
    requires from >= 1
  {
    out.Some? ==>
      var r := out.value.result;
      && (r.issues == [] ==>
        && from <= r.iterations <= limit && Repairs(world, base, r.iterations)
        && (forall m :: from <= m < r.iterations ==> !Repairs(world, base, m))
        && r.files == world.answer(r.iterations) && r.verified
        && out.value.batches == UsableUpTo(world, r.iterations))
      && (r.issues != [] ==>
        && r.issues == [FixFailed] && !r.verified && r.iterations == limit
        && (forall m :: from <= m <= limit ==> !Repairs(world, base, m))
        && r.files == (if from <= limit then world.answer(limit) else files)
        && out.value.batches == UsableUpTo(world, if from <= limit then limit else from - 1))
  }

  lemma {:induction false} FixingEnds(world: World, limit: int, attempt: nat, base: Tree, files: Batch, last: Checks)
    requires attempt >= 1
    ensures
      RepairEnds(world, limit, attempt, base, files,
                 FixFrom(world, limit, attempt, RepairedBy(world, base, attempt - 1), UsableUpTo(world, attempt - 1),
                         files, last))
    decreases limit - attempt
  {
    hide Try, RepairedBy, UsableUpTo, Repairs, AllSafe, IsUsable;
    if attempt <= limit {
      var answer, prev := world.answer(attempt), RepairedBy(world, base, attempt - 1);
      var t := Try(world, answer != [] && AllSafe(world.locate, answer), attempt, prev);
      RepairMeans(world, base, attempt);
      if t.Rejected? {
        UnusableFails(world, base, attempt);
        FixingEnds(world, limit, attempt + 1, base, answer, last);
      } else if t.Red? {
        RedIsNoRepair(world, base, attempt);
        FixingEnds(world, limit, attempt + 1, base, answer, t.checks);
      }
    }
  }

  lemma UnusableFails(world: World, base: Tree, n: nat)
    requires !IsUsable(world, world.answer(n))
    ensures !Repairs(world, base, n)
  {
  }

  lemma RedIsNoRepair(world: World, base: Tree, n: nat)
    requires n >= 1
    requires
      var answer := world.answer(n);
      Try(world, answer != [] && AllSafe(world.locate, answer), n, RepairedBy(world, base, n - 1)).Red?
    ensures !Repairs(world, base, n)
  {
    RepairMeans(world, base, n);
    hide Repairs, RepairedBy;
  }

  /** A usable batch cannot be written on what the attempts before it left. */
  ghost predicate CannotRepair(world: World, limit: int, base: Tree, n: nat) {
    && 1 <= n <= limit && IsUsable(world, world.answer(n))
    && !Writable(world, RepairedBy(world, base, n - 1), world.answer(n))
  }

  lemma {:induction false} UnrepairedMeans(world: World, limit: int, attempt: nat, base: Tree, files: Batch,
                                           last: Checks)
    requires attempt >= 1
    ensures
      var prev, batches := RepairedBy(world, base, attempt - 1), UsableUpTo(world, attempt - 1);
      FixFrom(world, limit, attempt, prev, batches, files, last).None? ==>
        exists n: nat :: CannotRepair(world, limit, base, n)
    decreases limit - attempt
  {
    hide Try, RepairedBy, UsableUpTo, Repairs, AllSafe, IsUsable, Writable;
    if attempt <= limit {
      var answer, prev := world.answer(attempt), RepairedBy(world, base, attempt - 1);
      var t := Try(world, answer != [] && AllSafe(world.locate, answer), attempt, prev);
      RepairMeans(world, base, attempt);
      if t.Rejected? {
        UnrepairedMeans(world, limit, attempt + 1, base, answer, last);
      } else if t.Red? {
        UnrepairedMeans(world, limit, attempt + 1, base, answer, t.checks);
      } else if t.Unwritten? {
        assert CannotRepair(world, limit, base, attempt);
      }
    }
  }

  /** The last usable attempt, or 0 if there is none. */
  ghost predicate IsLastUsable(world: World, limit: int, m: nat) {
    && (m > 0 ==> m <= limit && IsUsable(world, world.answer(m)))
    && forall k: nat :: m < k <= limit ==> !IsUsable(world, world.answer(k))
  }

  /** A repair that gives up reports the checks of the last usable attempt, or those that asked for it. */
  lemma {:induction false} RepairReports(world: World, limit: int, attempt: nat, base: Tree, files: Batch,
                                         last: Checks, m: nat)
    requires attempt >= 1 && IsLastUsable(world, limit, m)
    requires m < attempt ==> last == world.check(m, RepairedBy(world, base, m))
    ensures
      var prev, batches := RepairedBy(world, base, attempt - 1), UsableUpTo(world, attempt - 1);
      var out := FixFrom(world, limit, attempt, prev, batches, files, last);
      (m < attempt || attempt <= limit) && out.Some? && out.value.result.issues != [] ==>
        out.value.result.checks == world.check(m, RepairedBy(world, base, m))
    decreases limit - attempt
  {
    hide Try, RepairedBy, UsableUpTo, Repairs, AllSafe, IsUsable;
    if attempt <= limit {
      var answer, prev := world.answer(attempt), RepairedBy(world, base, attempt - 1);
      var t := Try(world, answer != [] && AllSafe(world.locate, answer), attempt, prev);
      RepairMeans(world, base, attempt);
      if t.Rejected? {
        RepairReports(world, limit, attempt + 1, base, answer, last, m);
      } else if t.Red? {
        RepairReports(world, limit, attempt + 1, base, answer, t.checks, m);
      }
    }
  }

  /** A branch on which no check fails is left alone, and counts as verified exactly if a check passed. Otherwise repair
      stops at the first usable attempt with which no check fails, and gives up only after the last. It ends in an I/O
      error only if a usable batch cannot be written. */
  lemma FixFinds(world: World, limit: int, base: Tree)
    ensures
      var out, checks := Fix(world, limit, base), world.check(0, base);
      && (NoneRed(checks) ==>
        out == Some(FixRun(CodingResult([], [], [], SomePassed(checks), 0, checks), base, [])))
      && (!NoneRed(checks) && out.Some? ==>
        var r := out.value.result;
        && (r.issues == [] <==> exists n: nat :: 1 <= n <= limit && Repairs(world, base, n))
        && (r.issues == [] ==>
          && 1 <= r.iterations <= limit && Repairs(world, base, r.iterations)
          && (forall m :: 1 <= m < r.iterations ==> !Repairs(world, base, m))
          && r.files == world.answer(r.iterations) && r.verified
          && out.value.batches == UsableUpTo(world, r.iterations))
        && (r.issues != [] ==>
          && r.issues == [FixFailed] && !r.verified && r.iterations == limit
          && r.files == (if limit >= 1 then world.answer(limit) else [])
          && out.value.batches == UsableUpTo(world, if limit >= 1 then limit else 0)
          && (forall m: nat :: IsLastUsable(world, limit, m) ==>
            r.checks == world.check(m, RepairedBy(world, base, m)))))
      && (!NoneRed(checks) && out.None? ==> exists n: nat :: CannotRepair(world, limit, base, n))
  {
    FixingEnds(world, limit, 1, base, [], world.check(0, base));
    UnrepairedMeans(world, limit, 1, base, [], world.check(0, base));
    assert RepairedBy(world, base, 0) == base && UsableUpTo(world, 0) == [];
    FirstChecks(world.check(0, base));
    forall m: nat | IsLastUsable(world, limit, m)
      ensures
        var out := FixFrom(world, limit, 1, base, [], [], world.check(0, base));
        out.Some? && out.value.result.issues != [] ==>
          out.value.result.checks == world.check(m, RepairedBy(world, base, m))
    {
      RepairReports(world, limit, 1, base, [], world.check(0, base), m);
    }
    hide IsLastUsable, IsUsable;
    hide FixFrom, Repairs, CannotRepair, Failing, NoneRed, Runnable, SomePassed, UsableUpTo, RepairedBy;
  }

  lemma FirstChecks(checks: Checks)
    ensures NoneRed(checks) <==> !Failing(checks)
    ensures NoneRed(checks) ==> (Runnable(checks) <==> SomePassed(checks))
  {
  }

  // ---- When "verified" can mean nothing passed ----

  /** The loop says "verified", and no check passed. */
  ghost predicate Misled(world: World, limit: int, base: Tree) {
    var run := Fix(world, limit, base);
    run.Some? && run.value.result.verified && !SomePassed(run.value.result.checks)
  }

  /** While every run of the checks can report something, "verified" means that a check passed. */
  lemma RunnableIsEnough(world: World, limit: int, base: Tree)
    requires forall n, t :: n >= 1 ==> Runnable(world.check(n, t))
    ensures !Misled(world, limit, base)
  {
    if Failing(world.check(0, base)) {
      var out := Fix(world, limit, base);
      FixedEvidence(world, limit, 1, base, base, [], [], world.check(0, base), out);
      if out.Some? && out.value.result.verified {
        assert Runnable(world.check(out.value.result.iterations, out.value.tree));
      }
    }
  }

  /** Something the model can answer with that the loop writes. */
  ghost predicate IsRepair(world: World, tree: Tree, b: Batch) {
    b != [] && DistinctPaths(b) && AllSafe(world.locate, b) && Writable(world, tree, b)
  }

  /** With suitable answers the loop comes to attempt n + 1 with this tree: each attempt either
      gave nothing usable, or was written and failed its checks. */
  ghost predicate CanReach(world: World, n: nat, base: Tree, tree: Tree)
    decreases n, 1
  {
    if n == 0 then tree == base && Failing(world.check(0, base))
    else CanReach(world, n - 1, base, tree) || exists prev, b :: FailsInto(world, n, base, prev, b, tree)
  }

  ghost predicate FailsInto(world: World, n: nat, base: Tree, prev: Tree, b: Batch, tree: Tree)
    requires n >= 1
    decreases n, 0
  {
    && CanReach(world, n - 1, base, prev) && IsRepair(world, prev, b)
    && tree == Written(world.locate, prev, b) && Failing(world.check(n, tree))
  }

  /** Some attempt within the limit can write a repair after which the checks report nothing that
      ran: all are refused or skipped. */
  ghost predicate CanGoQuiet(world: World, limit: int, base: Tree) {
    exists n: nat, tree, b :: n < limit && GoesQuiet(world, n, base, tree, b)
  }

  ghost predicate GoesQuiet(world: World, n: nat, base: Tree, tree: Tree, b: Batch) {
    && CanReach(world, n, base, tree) && IsRepair(world, tree, b)
    && !Runnable(world.check(n + 1, Written(world.locate, tree, b)))
  }

  /** The tree with which the loop starts attempt n + 1, if it gets that far. */
  function StateAt(world: World, n: nat, base: Tree): Option<Tree> {
    if n == 0 then if Failing(world.check(0, base)) then Some(base) else None
    else
      var before := StateAt(world, n - 1, base);
      if before.None? then None
      else
        var t := TryFix(world, n, before.value);
        if t.Rejected? then before else if t.Red? then Some(t.tree) else None
  }

  function TryFix(world: World, attempt: nat, tree: Tree): Attempt {
    Try(world, world.answer(attempt) != [] && AllSafe(world.locate, world.answer(attempt)), attempt, tree)
  }

  ghost predicate QuietAt(world: World, n: nat, base: Tree) {
    var at := StateAt(world, n, base);
    at.Some? && TryFix(world, n + 1, at.value).Green? && !Runnable(TryFix(world, n + 1, at.value).checks)
  }

  lemma FixFromStep(world: World, limit: int, n: nat, tree: Tree, batches: seq<Batch>, files: Batch, last: Checks)
    requires n < limit
    ensures
      var answer, t := world.answer(n + 1), TryFix(world, n + 1, tree);
      FixFrom(world, limit, n + 1, tree, batches, files, last) ==
        if t.Rejected? then FixFrom(world, limit, n + 2, tree, batches, answer, last)
        else if t.Unwritten? then None
        else if t.Red? then FixFrom(world, limit, n + 2, t.tree, batches + [answer], answer, t.checks)
        else Some(Fixed(n + 1, answer, t, batches))
  {
    hide Try;
  }

  ghost predicate IsMisled(out: Option<FixRun>) {
    out.Some? && out.value.result.verified && !SomePassed(out.value.result.checks)
  }

  /** An accepted attempt misleads exactly if nothing could run. */
  lemma GreenMisleads(world: World, n: nat, tree: Tree, batches: seq<Batch>)
    requires TryFix(world, n, tree).Green?
    ensures IsMisled(Some(Fixed(n, world.answer(n), TryFix(world, n, tree), batches))) <==>
      !Runnable(TryFix(world, n, tree).checks)
  {
    hide Written, Writable, AllSafe;
  }

  /** The loop from attempt n + 1 on ends misled exactly if some later attempt goes quiet. */
  lemma {:induction false} MisledFrom(world: World, limit: int, n: nat, base: Tree, tree: Tree,
                                      batches: seq<Batch>, files: Batch, last: Checks)
    requires StateAt(world, n, base) == Some(tree)
    ensures IsMisled(FixFrom(world, limit, n + 1, tree, batches, files, last)) <==>
      exists m: nat :: n <= m < limit && QuietAt(world, m, base)
    decreases limit - n
  {
    hide FixFrom, StateAt, TryFix, QuietAt, IsMisled, Runnable;
    if n >= limit {
      NotMisledAtEnd(world, limit, n, tree, batches, files, last);
    } else {
      var answer, t := world.answer(n + 1), TryFix(world, n + 1, tree);
      StateStep(world, n, base, tree);
      FixFromStep(world, limit, n, tree, batches, files, last);
      if t.Rejected? {
        MisledFrom(world, limit, n + 1, base, tree, batches, answer, last);
      } else if t.Red? {
        MisledFrom(world, limit, n + 1, base, t.tree, batches + [answer], answer, t.checks);
      } else {
        NoneQuietAfter(world, n + 1, base);
        NotMisled();
        if t.Green? {
          GreenMisleads(world, n + 1, tree, batches);
        }
      }
    }
  }

  lemma StateStep(world: World, n: nat, base: Tree, tree: Tree)
    requires StateAt(world, n, base) == Some(tree)
    ensures
      var t := TryFix(world, n + 1, tree);
      && StateAt(world, n + 1, base) == (if t.Rejected? then Some(tree) else if t.Red? then Some(t.tree) else None)
      && (QuietAt(world, n, base) <==> t.Green? && !Runnable(t.checks))
  {
    hide TryFix, Runnable;
  }

  lemma NotMisledAtEnd(world: World, limit: int, n: nat, tree: Tree, batches: seq<Batch>, files: Batch, last: Checks)
    requires n >= limit
    ensures !IsMisled(FixFrom(world, limit, n + 1, tree, batches, files, last))
  {
  }

  lemma NotMisled()
    ensures !IsMisled(None)
  {
  }

  lemma {:induction false} StaysEnded(world: World, n: nat, m: nat, base: Tree)
    requires n <= m && StateAt(world, n, base) == None
    ensures StateAt(world, m, base) == None
  {
    if n < m {
      StaysEnded(world, n, m - 1, base);
    }
  }

  lemma NoneQuietAfter(world: World, n: nat, base: Tree)
    requires StateAt(world, n, base) == None
    ensures forall m: nat :: n <= m ==> !QuietAt(world, m, base)
  {
    forall m: nat | n <= m
      ensures !QuietAt(world, m, base)
    {
      StaysEnded(world, n, m, base);
    }
  }

  lemma MisledMeans(world: World, limit: int, base: Tree)
    ensures Misled(world, limit, base) <==> exists m: nat :: m < limit && QuietAt(world, m, base)
  {
    assert Misled(world, limit, base) <==> IsMisled(Fix(world, limit, base));
    if Failing(world.check(0, base)) {
      MisledFrom(world, limit, 0, base, base, [], [], world.check(0, base));
    } else {
      NoneQuietAfter(world, 0, base);
    }
  }

  /** Where the loop gets, it can get. */
  lemma {:induction false} StateIsReachable(world: World, n: nat, base: Tree)
    requires forall k :: DistinctPaths(world.answer(k))
    requires StateAt(world, n, base).Some?
    ensures CanReach(world, n, base, StateAt(world, n, base).value)
  {
    if n > 0 {
      StateIsReachable(world, n - 1, base);
      var prev, answer := StateAt(world, n - 1, base).value, world.answer(n);
      if TryFix(world, n, prev).Red? {
        assert FailsInto(world, n, base, prev, answer, StateAt(world, n, base).value);
      }
    }
  }

  /** Answers read off a list, and nothing after its end. */
  function Scripted(world: World, script: seq<Batch>): World {
    world.(answer := (n: nat) => if 1 <= n <= |script| then script[n - 1] else [])
  }

  ghost predicate AreObjects(script: seq<Batch>) {
    forall i :: 0 <= i < |script| ==> DistinctPaths(script[i])
  }

  lemma SameTry(world: World, other: World, attempt: nat, tree: Tree)
    requires other == world.(answer := other.answer) && other.answer(attempt) == world.answer(attempt)
    ensures TryFix(other, attempt, tree) == TryFix(world, attempt, tree)
  {
    SameWritable(world, other, tree, world.answer(attempt));
  }

  /** Only the answers so far matter. */
  lemma {:induction false} StateByAnswers(world: World, n: nat, base: Tree, script: seq<Batch>, longer: seq<Batch>)
    requires n <= |script| && script <= longer
    ensures StateAt(Scripted(world, script), n, base) == StateAt(Scripted(world, longer), n, base)
  {
    if n > 0 {
      StateByAnswers(world, n - 1, base, script, longer);
      var before := StateAt(Scripted(world, script), n - 1, base);
      assert longer[n - 1] == script[n - 1];
      if before.Some? {
        SameTry(Scripted(world, longer), Scripted(world, script), n, before.value);
      }
    }
  }

  /** One more answer. */
  lemma ScriptStep(world: World, n: nat, base: Tree, prev: Tree, script: seq<Batch>, b: Batch)
    requires |script| == n && AreObjects(script) && DistinctPaths(b)
    requires StateAt(Scripted(world, script), n, base) == Some(prev)
    ensures |script + [b]| == n + 1 && AreObjects(script + [b])
    ensures StateAt(Scripted(world, script + [b]), n, base) == Some(prev)
    ensures Scripted(world, script + [b]).answer(n + 1) == b
  {
    StateByAnswers(world, n, base, script, script + [b]);
  }

  /** A usable repair is accepted or fails, in any world with the same checks and file system. */
  lemma RepairIsTried(world: World, script: seq<Batch>, n: nat, tree: Tree, b: Batch)
    requires n >= 1 && Scripted(world, script).answer(n) == b && IsRepair(world, tree, b)
    ensures
      var now := Written(world.locate, tree, b);
      TryFix(Scripted(world, script), n, tree)
        == if Failing(world.check(n, now)) then Red(now, world.check(n, now)) else Green(now, world.check(n, now))
  {
    SameWritable(world, Scripted(world, script), tree, b);
  }

  /** These answers bring the loop to the attempt after them, with this tree. */
  ghost predicate Brings(world: World, script: seq<Batch>, base: Tree, tree: Tree) {
    AreObjects(script) && StateAt(Scripted(world, script), |script|, base) == Some(tree)
  }

  lemma FailingStep(world: World, base: Tree, prev: Tree, script: seq<Batch>, b: Batch, tree: Tree)
    requires Brings(world, script, base, prev) && FailsInto(world, |script| + 1, base, prev, b, tree)
    ensures Brings(world, script + [b], base, tree)
  {
    hide CanReach, Written, Writable, AllSafe, Failing;
    ScriptStep(world, |script|, base, prev, script, b);
    assert DistinctPaths(b);
    RepairIsTried(world, script + [b], |script| + 1, prev, b);
    hide IsRepair, Scripted, TryFix;
  }

  lemma IdleStep(world: World, base: Tree, prev: Tree, script: seq<Batch>)
    requires Brings(world, script, base, prev)
    ensures Brings(world, script + [[]], base, prev)
  {
    ScriptStep(world, |script|, base, prev, script, []);
    var next := Scripted(world, script + [[]]);
    assert TryFix(next, |script| + 1, prev) == Rejected;
    hide Scripted, TryFix, AreObjects, DistinctPaths;
  }

  /** What can be reached is reached by some answers. */
  lemma {:induction false} ReachableByScript(world: World, n: nat, base: Tree, tree: Tree) returns (script: seq<Batch>)
    requires CanReach(world, n, base, tree)
    ensures |script| == n && Brings(world, script, base, tree)
  {
    if n == 0 {
      script := [];
    } else if CanReach(world, n - 1, base, tree) {
      hide Brings;
      var before := ReachableByScript(world, n - 1, base, tree);
      IdleStep(world, base, tree, before);
      script := before + [[]];
    } else {
      hide Brings;
      var prev, b :| FailsInto(world, n, base, prev, b, tree);
      var before := ReachableByScript(world, n - 1, base, prev);
      FailingStep(world, base, prev, before, b, tree);
      script := before + [b];
    }
  }

  /** A given model misleads only where the checks can go quiet. */
  lemma MisledNeedsQuiet(world: World, limit: int, base: Tree)
    requires forall k :: DistinctPaths(world.answer(k))
    ensures Misled(world, limit, base) ==> CanGoQuiet(world, limit, base)
  {
    MisledMeans(world, limit, base);
    if Misled(world, limit, base) {
      var m: nat :| m < limit && QuietAt(world, m, base);
      StateIsReachable(world, m, base);
      assert GoesQuiet(world, m, base, StateAt(world, m, base).value, world.answer(m + 1));
    }
  }

  /** Some answers make the loop say "verified" with nothing passed exactly if, for this check runner
      and file system, some reachable repair silences every check. */
  lemma FixVerifiedWithoutPassIff(world: World, limit: int, base: Tree)
    ensures CanGoQuiet(world, limit, base) <==>
      exists script :: AreObjects(script) && Misled(Scripted(world, script), limit, base)
  {
    if CanGoQuiet(world, limit, base) {
      var script := MisleadingScript(world, limit, base);
    }
    if script :| AreObjects(script) && Misled(Scripted(world, script), limit, base) {
      MisledNeedsQuiet(Scripted(world, script), limit, base);
      SameQuiet(world, Scripted(world, script), limit, base);
    }
  }

  lemma MisleadingScript(world: World, limit: int, base: Tree) returns (script: seq<Batch>)
    requires CanGoQuiet(world, limit, base)
    ensures AreObjects(script) && Misled(Scripted(world, script), limit, base)
  {
    var n: nat, tree, b :| n < limit && GoesQuiet(world, n, base, tree, b);
    var before := ReachableByScript(world, n, base, tree);
    ScriptStep(world, n, base, tree, before, b);
    script := before + [b];
    RepairIsTried(world, script, n + 1, tree, b);
    assert QuietAt(Scripted(world, script), n, base);
    MisledMeans(Scripted(world, script), limit, base);
  }

  lemma SameQuiet(world: World, other: World, limit: int, base: Tree)
    requires other == world.(answer := other.answer) && CanGoQuiet(other, limit, base)
    ensures CanGoQuiet(world, limit, base)
  {
    var n: nat, tree, b :| n < limit && GoesQuiet(other, n, base, tree, b);
    SameReach(world, other, n, base, tree);
    SameWritable(world, other, tree, b);
    assert GoesQuiet(world, n, base, tree, b);
  }

  /** What can be reached does not depend on what a particular model answers. */
  lemma {:induction false} SameReach(world: World, other: World, n: nat, base: Tree, tree: Tree)
    requires other == world.(answer := other.answer) && CanReach(other, n, base, tree)
    ensures CanReach(world, n, base, tree)
  {
    if n > 0 {
      if CanReach(other, n - 1, base, tree) {
        SameReach(world, other, n - 1, base, tree);
      } else {
        var prev, b :| FailsInto(other, n, base, prev, b, tree);
        SameReach(world, other, n - 1, base, prev);
        SameWritable(world, other, prev, b);
        assert FailsInto(world, n, base, prev, b, tree);
      }
    }
  }

  lemma {:induction false} SameWritable(world: World, other: World, tree: Tree, b: Batch)
    requires other == world.(answer := other.answer)
    ensures Writable(world, tree, b) <==> Writable(other, tree, b)
  {
    if b != [] {
      SameWritable(world, other, tree, b[..|b| - 1]);
    }
  }

  // ---- Two runs that show it ----

  const A := Edit("a", "1")
  const B := Edit("b", "2")

  /** A check that needs two files, and a model that repairs one file at a time. */
  const IN_TWO_STEPS := World(
    Target,
    (n: nat) => if n == 1 then [A] else [B],
    (n: nat, tree: Tree) => map["test" := if ["a"] in tree && ["b"] in tree then Passed else Failed],
    (tree: Tree, path: string) => true)

  /** A check that starts a script of the repository, which fails, and a model that replaces the script by
      something that cannot be executed. */
  const PROSE := Edit("pytest", "fixed")
  const SCRIPTED: Tree := map[["pytest"] := "#!"]
  const SILENCED := World(
    Target,
    (n: nat) => [PROSE],
    (n: nat, tree: Tree) =>
      map["test" := if ["pytest"] in tree && tree[["pytest"]] == "#!" then Failed else Refused],
    (tree: Tree, path: string) => true)

  predicate IsPlain(s: string) { s != "" && forall i :: 0 <= i < |s| ==> 'a' <= s[i] <= 'z' }

  lemma EndHasDot(s: string, suffix: string)
    requires suffix != "" && suffix[0] == '.'
    ensures EndsBy(s, suffix) ==> '.' in s
  {
    if stem :| IsJoined(s, stem, suffix) {
      assert s[|stem|] == suffix[0];
    }
  }

  lemma PlainIsAllowed(s: string)
    requires IsPlain(s)
    ensures !IsDenied(s) && IsName(s)
  {
    assert '.' !in s && s[0] != '.';
    DeniedIff(s);
    assert Lower(s) == s;
    assert "id_rsa"[2] == '_' && "id_dsa"[2] == '_';
    hide IsDenied, Lower, EndsBy;
    EndHasDot(s, ".pem");
    EndHasDot(s, ".key");
    EndHasDot(s, ".p12");
    EndHasDot(s, ".pfx");
    EndHasDot(s, ".secret");
  }

  /** A name of small letters is the path of a file directly below the root. */
  lemma PlainIsFile(s: string)
    requires IsPlain(s)
    ensures Target(s) == Some([s])
  {
    hide IsDenied, Lower, NormPath, NormFrom, IsSafeRepoPath, FileOf;
    PlainIsAllowed(s);
    SplitPlain(s);
    assert Walk([s], []) == Some([s]) by {
      assert [s][1..] == [] && [] + [s] == [s];
    }
    SafeIff(s);
    TargetIs(s);
  }

  /** A safe path names the file its walk leads to. */
  lemma TargetIs(s: string)
    requires IsSafeRepoPath(s)
    ensures Walk(Split(s), []).Some? && Target(s) == Some(Walk(Split(s), []).value)
  {
    SafeIff(s);
  }

  /** A batch of one file. */
  lemma WriteOne(world: World, tree: Tree, e: Edit, file: File)
    requires world.locate(e.path) == Some(file) && file != [] && world.accepts(tree, e.path)
    ensures Written(world.locate, tree, [e]) == tree[file := e.content]
    ensures Writable(world, tree, [e]) && AllSafe(world.locate, [e])
  {
    assert [e][..0] == [];
    assert Written(world.locate, tree, []) == tree;
    assert Writable(world, tree, []);
  }

  /** A verified repair in two attempts of which only the second is returned: with the returned files
      alone the check that passed fails. */
  lemma FixCommitCanMiss()
    ensures
      var run := Fix(IN_TWO_STEPS, 2, map[]);
      && run.Some? && run.value.result == CodingResult([B], [], [], true, 2, map["test" := Passed])
      && run.value.tree == map[["a"] := "1", ["b"] := "2"]
      && Written(Target, map[], run.value.result.files) == map[["b"] := "2"]
      && IN_TWO_STEPS.check(2, map[["b"] := "2"]) == map["test" := Failed]
  {
    hide Target, Written, Writable;
    var w, t1 := IN_TWO_STEPS, map[["a"] := "1"];
    var t2 := t1[["b"] := "2"];
    PlainIsFile("a");
    PlainIsFile("b");
    WriteOne(w, map[], A, ["a"]);
    WriteOne(w, t1, B, ["b"]);
    WriteOne(w, map[], B, ["b"]);
    assert ["a"][0] != ["b"][0];
    assert w.check(0, map[])["test"] == Failed && w.check(1, t1)["test"] == Failed;
    assert w.check(2, t2) == map["test" := Passed] && !Failing(w.check(2, t2));
    assert Fix(w, 2, map[]) == FixFrom(w, 2, 1, map[], [], [], w.check(0, map[]));
    assert TryFix(w, 1, map[]) == Red(t1, w.check(1, t1));
    assert [] + [[A]] == [[A]];
    assert Fix(w, 2, map[]) == FixFrom(w, 2, 2, t1, [[A]], [A], w.check(1, t1));
    assert TryFix(w, 2, t1) == Green(t2, w.check(2, t2));
  }

  lemma SilencedChecks()
    ensures SILENCED.check(0, SCRIPTED) == map["test" := Failed]
    ensures SILENCED.check(1, map[["pytest"] := "fixed"]) == map["test" := Refused]
  {
    assert "fixed"[0] != "#!"[0];
  }

  /** A run that ends "verified" with its one check refused. */
  lemma FixVerifiedCanMeanNothingPassed()
    ensures Misled(SILENCED, 1, SCRIPTED)
    ensures Fix(SILENCED, 1, SCRIPTED).value.result == CodingResult([PROSE], [], [], true, 1, map["test" := Refused])
  {
    hide Target, Written, Writable, Left;
    var w, t1: Tree := SILENCED, map[["pytest"] := "fixed"];
    assert t1 == SCRIPTED[["pytest"] := "fixed"];
    PlainIsFile("pytest");
    WriteOne(w, SCRIPTED, PROSE, ["pytest"]);
    SilencedChecks();
    assert w.check(0, SCRIPTED)["test"] == Failed;
    assert !Failing(w.check(1, t1));
    assert Fix(w, 1, SCRIPTED) == FixFrom(w, 1, 1, SCRIPTED, [], [], w.check(0, SCRIPTED));
  }

  // ---- The loops themselves ----

  class Checkout {
    var tree: Tree

    constructor (tree: Tree)
      ensures this.tree == tree
    {
      this.tree := tree;
    }

    /** Writes the safe paths of the batch in order; stops at the first write that fails. */
    method WriteFiles(batch: Batch, world: World) returns (ok: bool)
      modifies this
      ensures ok == Writable(world, old(tree), batch)
      ensures ok ==> tree == Written(world.locate, old(tree), batch)
    {
      for k := 0 to |batch|
        invariant Writable(world, old(tree), batch[..k]) && tree == Written(world.locate, old(tree), batch[..k])
      {
        var e := batch[k];
        assert batch[..k + 1][..k] == batch[..k];
        var file := world.locate(e.path);
        if file.None? {
          continue;
        }
        if file.value == [] || !world.accepts(tree, e.path) {
          StaysUnwritable(world, old(tree), batch, k + 1);
          return false;
        }
        tree := tree[file.value := e.content];
      }
      assert batch[..|batch|] == batch;
      ok := true;
    }

    method GenerateChanges(changes: seq<Change>, world: World, limit: int) returns (result: Option<CodingResult>)
      modifies this
      ensures
        var out := Generate(world, changes, limit, 1, old(tree), [], map[]);
        && result.Some? == out.Some?
        && (out.Some? ==> result.value == out.value.result && tree == out.value.tree)
    {
      var files: Batch, last: Checks := [], map[];
      var attempt := 1;
      while attempt <= limit
        invariant attempt >= 1
        invariant Generate(world, changes, limit, 1, old(tree), [], map[])
          == Generate(world, changes, limit, attempt, tree, files, last)
        decreases limit - attempt
      {
        files := world.answer(attempt);
        if SelfCheck(world.locate, files, changes) == [] {
          var ok := WriteFiles(files, world);
          if !ok {
            return None;
          }
          last := world.check(attempt, tree);
          if !Failing(last) {
            return Some(CodingResult(files, DeletedPaths(changes), [], Runnable(last), attempt, last));
          }
        }
        attempt := attempt + 1;
      }
      result := Some(Exhausted(world.locate, changes, files, limit, last));
    }

    method RunFixLoop(world: World, limit: int) returns (result: Option<CodingResult>)
      modifies this
      ensures
        var out := Fix(world, limit, old(tree));
        && result.Some? == out.Some?
        && (out.Some? ==> result.value == out.value.result && tree == out.value.tree)
    {
      var last := world.check(0, tree);
      if !Failing(last) {
        return Some(CodingResult([], [], [], Runnable(last), 0, last));
      }
      var files: Batch := [];
      ghost var batches := [];
      var attempt := 1;
      while attempt <= limit
        invariant attempt >= 1
        invariant Fix(world, limit, old(tree)) == FixFrom(world, limit, attempt, tree, batches, files, last)
        decreases limit - attempt
      {
        files := world.answer(attempt);
        if files != [] && AllSafe(world.locate, files) {
          var ok := WriteFiles(files, world);
          if !ok {
            return None;
          }
          batches := batches + [files];
          last := world.check(attempt, tree);
          if !Failing(last) {
            return Some(CodingResult(files, [], [], true, attempt, last));
          }
        }
        attempt := attempt + 1;
      }
      result := Some(CodingResult(files, [], [FixFailed], false, limit, last));
    }
  }

  lemma {:induction false} StaysUnwritable(world: World, tree: Tree, batch: Batch, k: nat)
    requires k <= |batch| && !Writable(world, tree, batch[..k])
    ensures !Writable(world, tree, batch)
    decreases |batch|
  {
    if k < |batch| {
      var init := batch[..|batch| - 1];
      assert init[..k] == batch[..k];
      StaysUnwritable(world, tree, init, k);
    } else {
      assert batch[..k] == batch;
    }
  }

  // ---- Where writes land ----

  /** With the real path rules, a batch that is written changes nothing except files strictly below
      the root whose components are plain, allowed names. */
  lemma WritesStayInside(world: World, tree: Tree, batch: Batch, file: File)
    requires world.locate == Target && Writable(world, tree, batch)
    requires !Agree(Written(Target, tree, batch), tree, file)
    ensures file != [] && AllNames(file) && Acceptable(file)
  {
    WrittenIsLeft(Target, tree, batch, file);
    var i :| 0 <= i < |batch| && Target(batch[i].path) == Some(file);
    SafeIff(batch[i].path);
    WritableIsBelowRoot(world, tree, batch, i);
  }

  lemma {:induction false} WritableIsBelowRoot(world: World, tree: Tree, batch: Batch, i: nat)
    requires Writable(world, tree, batch) && i < |batch|
    ensures world.locate(batch[i].path) != Some([])
  {
    if i < |batch| - 1 {
      WritableIsBelowRoot(world, tree, batch[..|batch| - 1], i);
    }
  }
}
