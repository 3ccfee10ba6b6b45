/** When the line budget can be missed. It is measured against the planned files as they were read, and a file that
    is too long reads as empty (app/scope.py, app/orchestrator.py:247-255). */
module ScopeBudget {
  import opened Wrappers
  import opened Contracts
  import opened Coding
  import opened Delivery

  /** The text a planned path is taken to have had. */
  function Seen(w: RepoWorld, base: Tree, path: string): string {
    var text := TextIn(w.coding.locate, base, path);
    if w.bytes(text) <= MAX_READ_BYTES then text else ""
  }

  function Had(w: RepoWorld, base: Tree, path: string): string { TextIn(w.coding.locate, base, path) }

  ghost predicate IsAway(w: RepoWorld, text: string, n: nat) {
    exists x :: !Blank(x) && w.diff(text, x) == n
  }

  ghost predicate IsStrange(w: RepoWorld, text: string, n: nat) {
    exists x :: !Blank(x) && w.diff("", x) == n && w.diff(text, x) > n
  }

  /** What any diff by lines offers: a text has a line unless it is empty, some text is any given number of lines
      away from it, and some text of any given number of lines has none in common with it. */
  ghost predicate CountsLines(w: RepoWorld) {
    && w.bytes("") == 0 && w.lines("") == 0
    && (forall text :: text != "" ==> w.lines(text) >= 1)
    && (forall text: string, n: nat :: n >= 1 ==> IsAway(w, text, n))
    && (forall text: string, n: nat :: n >= 1 && text != "" ==> IsStrange(w, text, n))
  }

  /** A diff over one-letter lines that counts this way: what is appended, or else everything. */
  function Appending(w: RepoWorld): RepoWorld {
    w.(bytes := (text: string) => |text|,
       lines := (text: string) => |text|,
       diff := (was: string, now: string) => if was <= now then |now| - |was| else |was| + |now|)
  }

  lemma SomeDiffCounts(w: RepoWorld)
    ensures CountsLines(Appending(w))
  {
    var v := Appending(w);
    forall text: string, n: nat | n >= 1
      ensures IsAway(v, text, n)
      ensures text != "" ==> IsStrange(v, text, n)
    {
      var more: string := seq(n, (i: nat) => 'a');
      assert (text + more)[|text|] == 'a' && !Blank(text + more) && v.diff(text, text + more) == n;
      var other: string := seq(n, (i: nat) => if text != "" && text[0] == 'a' then 'b' else 'a');
      assert other[0] in {'a', 'b'} && !Blank(other);
      assert "" <= other && v.diff("", other) == n;
      assert text != "" ==> !(text <= other) && v.diff(text, other) > n;
    }
  }

  /** The self-check accepts these files, they are measured within budget, and they are not. */
  ghost predicate Misses(w: RepoWorld, base: Tree, changes: seq<Change>, settings: Settings, files: Batch) {
    && DistinctPaths(files) && SelfCheck(w.coding.locate, files, changes) == []
    && AssessScope(w, Originals(w, base, changes), files, DeletedPaths(changes), settings).diffLines
      <= settings.maxDiffLinesAuto
      < DiffLines(w, p => TextIn(w.coding.locate, base, p), files, DeletedPaths(changes))
  }

  /** There is a line for each planned file, besides the lines of the deleted files. */
  predicate HasRoom(w: RepoWorld, base: Tree, changes: seq<Change>, settings: Settings) {
    |Coding.Planned(changes)| + RemovedLines(w.lines, p => Seen(w, base, p), DeletedPaths(changes))
      <= settings.maxDiffLinesAuto
  }

  /** What is measured, over the texts as they were read. */
  lemma MeasuredIs(w: RepoWorld, base: Tree, changes: seq<Change>, files: Batch, settings: Settings)
    requires PathsOf(files) == Coding.Planned(changes)
    ensures AssessScope(w, Originals(w, base, changes), files, DeletedPaths(changes), settings).diffLines
      == DiffLines(w, p => Seen(w, base, p), files, DeletedPaths(changes))
  {
    var originals := Originals(w, base, changes);
    forall i | 0 <= i < |files|
      ensures files[i].path in PathsIn(changes)
    {
      assert files[i].path in PathsOf(files);
      var j :| 0 <= j < |changes| && changes[j].action != Delete && changes[j].path == files[i].path;
      assert PathsIn(changes)[j] == files[i].path;
    }
    DeletedArePlanned(changes);
    SameLines(w, p => if p in originals then originals[p] else "", p => Seen(w, base, p), files,
              DeletedPaths(changes));
  }

  /** A text for one file: measured at `n` lines, and at more if the file was too long to be read. */
  lemma TextFor(w: RepoWorld, base: Tree, path: string, n: nat) returns (x: string)
    requires CountsLines(w) && n >= 1
    ensures !Blank(x) && w.diff(Seen(w, base, path), x) == n
    ensures w.diff(Had(w, base, path), x) >= n
    ensures Seen(w, base, path) != Had(w, base, path) ==> w.diff(Had(w, base, path), x) > n
  {
    var text := Had(w, base, path);
    if Seen(w, base, path) == text {
      assert IsAway(w, text, n);
      x :| !Blank(x) && w.diff(text, x) == n;
    } else {
      assert IsStrange(w, text, n);
      x :| !Blank(x) && w.diff("", x) == n && w.diff(text, x) > n;
    }
  }

  function LinesFor(path: string, first: string, n: nat): nat { if path == first then n else 1 }

  function TotalFor(paths: set<string>, first: string, n: nat): int {
    |paths| + if first in paths then n - 1 else 0
  }

  /** What `FilesFor` promises. */
  ghost predicate Fits(w: RepoWorld, base: Tree, paths: set<string>, total: int, files: Batch) {
    && DistinctPaths(files) && PathsOf(files) == paths
    && (forall i :: 0 <= i < |files| ==> !Blank(files[i].content))
    && ChangedLines(w.diff, p => Seen(w, base, p), files) == total
    && ChangedLines(w.diff, p => Had(w, base, p), files)
      >= total + if HasUnread(w, base, paths) then 1 else 0
  }

  ghost predicate HasUnread(w: RepoWorld, base: Tree, paths: set<string>) {
    exists p :: p in paths && Seen(w, base, p) != Had(w, base, p)
  }

  /** Files for these paths that measure one line each, and `n` for the first: at least that many against the base,
      and more if one of them was too long to be read. */
  lemma {:induction false} FilesFor(w: RepoWorld, base: Tree, paths: set<string>, first: string, n: nat)
    returns (files: Batch)
    requires CountsLines(w) && n >= 1
    ensures Fits(w, base, paths, TotalFor(paths, first, n), files)
    decreases |paths|
  {
    hide Fits, CountsLines;
    if paths == {} {
      files := [];
      NoneFits(w, base);
    } else {
      var path :| path in paths;
      var init := FilesFor(w, base, paths - {path}, first, n);
      var x := TextFor(w, base, path, LinesFor(path, first, n));
      files := init + [Edit(path, x)];
      OneMoreFits(w, base, paths - {path}, TotalFor(paths - {path}, first, n), init, Edit(path, x),
                  LinesFor(path, first, n));
      assert paths - {path} + {path} == paths;
    }
  }

  lemma NoneFits(w: RepoWorld, base: Tree)
    ensures Fits(w, base, {}, 0, [])
  {
    assert PathsOf([]) == {};
  }

  lemma OneMoreFits(w: RepoWorld, base: Tree, paths: set<string>, total: int, files: Batch, e: Edit, n: nat)
    requires Fits(w, base, paths, total, files) && e.path !in paths && !Blank(e.content)
    requires w.diff(Seen(w, base, e.path), e.content) == n
    requires w.diff(Had(w, base, e.path), e.content) >= n
    requires Seen(w, base, e.path) != Had(w, base, e.path) ==> w.diff(Had(w, base, e.path), e.content) > n
    ensures Fits(w, base, paths + {e.path}, total + n, files + [e])
  {
    hide Seen, Had, TextIn;
    AddsPath(files, e);
    AddsLines(w.diff, p => Seen(w, base, p), files, e);
    AddsLines(w.diff, p => Had(w, base, p), files, e);
    hide PathsOf, ChangedLines, DistinctPaths, Blank;
  }

  lemma AddsLines(diff: (string, string) -> nat, was: string -> string, files: Batch, e: Edit)
    ensures ChangedLines(diff, was, files + [e]) == ChangedLines(diff, was, files) + diff(was(e.path), e.content)
  {
    assert (files + [e])[..|files + [e]| - 1] == files;
  }

  lemma AddsPath(files: Batch, e: Edit)
    requires DistinctPaths(files) && e.path !in PathsOf(files)
    ensures DistinctPaths(files + [e]) && PathsOf(files + [e]) == PathsOf(files) + {e.path}
  {
    forall i | 0 <= i < |files|
      ensures files[i].path in PathsOf(files) && (files + [e])[i].path in PathsOf(files + [e])
    {
    }
    assert (files + [e])[|files|] == e;
  }

  /** Deleting a file that was too long to be read counts nothing. */
  lemma {:induction false} RemovedAtLeast(w: RepoWorld, base: Tree, deletions: seq<string>)
    requires CountsLines(w)
    ensures
      var seen, had := RemovedLines(w.lines, p => Seen(w, base, p), deletions),
                       RemovedLines(w.lines, p => Had(w, base, p), deletions);
      && had >= seen
      && ((exists p :: p in deletions && Seen(w, base, p) != Had(w, base, p)) ==> had > seen)
  {
    if deletions != [] {
      RemovedAtLeast(w, base, deletions[..|deletions| - 1]);
      assert deletions == deletions[..|deletions| - 1] + [Last(deletions)];
    }
  }

  lemma DeletedOrPlanned(changes: seq<Change>, i: nat)
    requires i < |changes|
    ensures changes[i].path in Coding.Planned(changes) || changes[i].path in DeletedPaths(changes)
  {
    if changes[i].action == Delete && i < |changes| - 1 {
      var init := changes[..|changes| - 1];
      DeletedOrPlanned(init, i);
      if changes[i].path in Coding.Planned(init) {
        var j :| 0 <= j < |init| && init[j].action != Delete && init[j].path == changes[i].path;
        assert changes[j] == init[j];
      }
    }
  }

  /** A plan with room in the budget: whatever the diff, some accepted answer is over budget and measured within it
      exactly if a planned file of the fork base is too long to be read. */
  lemma BudgetCanBeMissedIff(w: RepoWorld, base: Tree, changes: seq<Change>, settings: Settings)
    requires CountsLines(w) && HasRoom(w, base, changes, settings) && Coding.Planned(changes) != {}
    requires forall i :: 0 <= i < |changes| ==> w.coding.locate(changes[i].path).Some?
    ensures (exists files :: Misses(w, base, changes, settings, files)) <==> !AllReadable(w, base, changes)
  {
    if AllReadable(w, base, changes) {
      forall files
        ensures !Misses(w, base, changes, settings, files)
      {
        SelfCheckIff(w.coding.locate, files, changes);
        if SelfCheck(w.coding.locate, files, changes) == [] {
          ScopeIsDiff(w, base, changes, files, DeletedPaths(changes), settings);
        }
      }
    } else {
      var files := MissingAnswer(w, base, changes, settings);
    }
  }

  lemma MissingAnswer(w: RepoWorld, base: Tree, changes: seq<Change>, settings: Settings) returns (files: Batch)
    requires CountsLines(w) && HasRoom(w, base, changes, settings) && Coding.Planned(changes) != {}
    requires forall i :: 0 <= i < |changes| ==> w.coding.locate(changes[i].path).Some?
    requires !AllReadable(w, base, changes)
    ensures Misses(w, base, changes, settings, files)
  {
    var paths, deletions := Coding.Planned(changes), DeletedPaths(changes);
    var first :| first in paths;
    var n := settings.maxDiffLinesAuto - RemovedLines(w.lines, p => Seen(w, base, p), deletions) - |paths| + 1;
    files := FilesFor(w, base, paths, first, n);
    RemovedAtLeast(w, base, deletions);
    Unreadable(w, base, changes);
    MeasuredIs(w, base, changes, files, settings);
    PlannedAreSafe(w, changes, files);
    hide CountsLines, Seen, SelfCheck, ChangedLines, RemovedLines, AllReadable, AssessScope, HasUnread;
    SameLines(w, p => Had(w, base, p), p => TextIn(w.coding.locate, base, p), files, deletions);
  }

  lemma PlannedAreSafe(w: RepoWorld, changes: seq<Change>, files: Batch)
    requires PathsOf(files) == Coding.Planned(changes) && forall i :: 0 <= i < |files| ==> !Blank(files[i].content)
    requires forall i :: 0 <= i < |changes| ==> w.coding.locate(changes[i].path).Some?
    ensures SelfCheck(w.coding.locate, files, changes) == []
  {
    forall i | 0 <= i < |files|
      ensures w.coding.locate(files[i].path).Some?
    {
      assert files[i].path in PathsOf(files);
    }
    SelfCheckIff(w.coding.locate, files, changes);
  }

  lemma Unreadable(w: RepoWorld, base: Tree, changes: seq<Change>)
    requires CountsLines(w) && !AllReadable(w, base, changes)
    ensures
      || HasUnread(w, base, Coding.Planned(changes))
      || exists p :: p in DeletedPaths(changes) && Seen(w, base, p) != Had(w, base, p)
  {
    var i :| 0 <= i < |changes| && w.bytes(TextIn(w.coding.locate, base, changes[i].path)) > MAX_READ_BYTES;
    DeletedOrPlanned(changes, i);
    assert Seen(w, base, changes[i].path) != Had(w, base, changes[i].path);
  }
}
