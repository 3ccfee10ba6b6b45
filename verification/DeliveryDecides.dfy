/** What a delivery comes to, told from outside: which calls reach GitLab, with what, and which outcome the caller
    gets, from the card, the settings, the answers of the models and of GitLab (app/orchestrator.py, app/gates.py). */
module DeliveryDecides {
  import opened Wrappers
  import opened Contracts
  import opened Risk
  import opened Coding
  import opened GitLabHost
  import opened Delivery

  // ---- What one call does ----

  ghost predicate OthersUntouched(met: map<Ref, Tree>, left: map<Ref, Tree>, at: Ref) {
    && (forall r :: r != at ==> (r in left <==> r in met))
    && (forall r :: r != at && r in met ==> left[r] == met[r])
  }

  /** The branch is there afterwards, with the content of its origin if it is new. */
  ghost predicate IsFork(d: Done, at: Ref, from: Ref) {
    && from in d.met.trees && at in d.left.trees && OthersUntouched(d.met.trees, d.left.trees, at)
    && d.left.trees[at] == (if at in d.met.trees then d.met.trees[at] else d.met.trees[from])
    && d.left.mrs == d.met.mrs
  }

  /** The files of the batch are on the branch as the batch says last; everything else is as it was. */
  ghost predicate IsCommit(d: Done, locate: Locate, at: Ref, files: Batch) {
    && at in d.met.trees && at in d.left.trees && OthersUntouched(d.met.trees, d.left.trees, at)
    && (forall file :: !Touches(locate, files, file) ==> Agree(d.left.trees[at], d.met.trees[at], file))
    && (forall i :: 0 <= i < |files| && locate(files[i].path).Some? && IsLastFor(locate, files, i) ==>
      var file := locate(files[i].path).value;
      file in d.left.trees[at] && d.left.trees[at][file] == files[i].content)
    && d.left.mrs == d.met.mrs
  }

  /** No later entry of the batch names the same file. */
  ghost predicate IsLastFor(locate: Locate, files: Batch, i: nat) {
    i < |files| && forall j :: i < j < |files| ==> locate(files[j].path) != locate(files[i].path)
  }

  /** One draft more, open, from this branch to this target, with the next number and no reviewer. */
  ghost predicate IsOpening(d: Done, at: Ref, target: Branch) {
    var n := |d.met.mrs|;
    && d.left.trees == d.met.trees && |d.left.mrs| == n + 1 && d.left.mrs[..n] == d.met.mrs
    && d.left.mrs[n].iid == n + 1 && d.left.mrs[n].repo == at.repo && d.left.mrs[n].source == at.branch
    && d.left.mrs[n].target == target && d.left.mrs[n].draft && d.left.mrs[n].open && d.left.mrs[n].reviewer == None
  }

  /** The request of that number is ready and has its reviewer; the others are as they were. */
  ghost predicate IsLift(d: Done, repo: Repo, iid: nat, reviewer: Option<string>) {
    && d.left.trees == d.met.trees && |d.left.mrs| == |d.met.mrs|
    && forall i :: 0 <= i < |d.met.mrs| ==>
      var m, m' := d.met.mrs[i], d.left.mrs[i];
      if m.repo == repo && m.iid == iid then
        !m'.draft && m'.reviewer == reviewer && m'.(draft := m.draft, reviewer := m.reviewer) == m
      else m' == m
  }

  lemma ForkMeans(d: Done, at: Ref, from: Branch)
    requires Answered(d) && d.act == ForkAct(at, from)
    ensures IsFork(d, at, Ref(at.repo, from))
  {
  }

  lemma CommitMeans(d: Done, locate: Locate, at: Ref, files: Batch)
    requires Answered(d) && d.act == CommitAct(locate, at, files)
    ensures IsCommit(d, locate, at, files)
  {
    var was, now := d.met.trees[at], d.left.trees[at];
    forall file
      ensures !Touches(locate, files, file) ==> Agree(now, was, file)
    {
      WrittenIsLeft(locate, was, files, file);
    }
    forall i | 0 <= i < |files| && locate(files[i].path).Some? && IsLastFor(locate, files, i)
      ensures
        var file := locate(files[i].path).value;
        file in now && now[file] == files[i].content
    {
      WrittenIsLeft(locate, was, files, locate(files[i].path).value);
      LeftIsLast(locate, files, i);
    }
  }

  lemma OpeningMeans(d: Done, at: Ref, target: Branch)
    requires Answered(d) && d.act == OpenAct(at, target)
    ensures IsOpening(d, at, target)
  {
  }

  lemma LiftMeans(d: Done, repo: Repo, iid: nat, reviewer: Option<string>)
    requires Answered(d) && d.act == LiftAct(repo, iid, reviewer)
    ensures IsLift(d, repo, iid, reviewer)
  {
  }

  ghost predicate Heard(remote: Remote, call: Call) { remote.refused != Some(call) }

  // ---- Publishing ----

  /** The branch is forked exactly if it is missing when looked for; the step fails exactly if a call raises or
      there is nothing to fork from. */
  lemma BranchDecides(f: Forge, at: Ref, from: Branch, remote: Remote)
    ensures
      var ran, looked := EnsureBranch(f, at, from, remote), remote.others(LookCall, f);
      var met := remote.others(BranchCall, looked);
      && (ran.out <==>
        && Heard(remote, LookCall)
        && (at in looked.trees || (Heard(remote, BranchCall) && Ref(at.repo, from) in met.trees)))
      && (ran.calls != [] <==> ran.out && at !in looked.trees)
      && (ran.calls != [] ==>
        && |ran.calls| == 1 && ran.calls[0].met == met && ran.calls[0].left == ran.forge
        && ran.calls[0].act.ForkAct? && IsFork(ran.calls[0], at, Ref(at.repo, from)))
      && (ran.calls == [] ==>
        ran.forge == if Heard(remote, LookCall) && at !in looked.trees then met else looked)
  {
    hide IsFork;
    BranchCalls(f, at, from, remote);
    var calls := EnsureBranch(f, at, from, remote).calls;
    if calls != [] {
      ForkMeans(calls[0], at, from);
    }
    hide Apply;
  }

  ghost predicate IsOpenOf(m: MergeRequest, at: Ref) { m.open && m.repo == at.repo && m.source == at.branch }

  /** Entry `k` is the first open request of the branch. */
  ghost predicate IsFirstOpenOf(f: Forge, k: nat, at: Ref) {
    k < |f.mrs| && IsOpenOf(f.mrs[k], at) && forall i :: 0 <= i < k ==> !IsOpenOf(f.mrs[i], at)
  }

  ghost predicate HasOpen(f: Forge, at: Ref) { exists i :: 0 <= i < |f.mrs| && IsOpenOf(f.mrs[i], at) }

  /** The first open request of the branch is taken; a draft is opened exactly if there is none. */
  lemma RequestDecides(f: Forge, at: Ref, target: Branch, remote: Remote)
    ensures
      var ran, found := EnsureRequest(f, at, target, remote), remote.others(FindCall, f);
      var met := remote.others(RequestCall, found);
      && (ran.calls != [] <==> Heard(remote, FindCall) && !HasOpen(found, at) && Heard(remote, RequestCall))
      && (ran.calls != [] ==>
        && |ran.calls| == 1 && ran.calls[0].met == met && ran.calls[0].left == ran.forge
        && ran.calls[0].act.OpenAct? && IsOpening(ran.calls[0], at, target) && ran.out == Some(|met.mrs| + 1))
      && (ran.out.Some? <==> Heard(remote, FindCall) && (HasOpen(found, at) || Heard(remote, RequestCall)))
      && (ran.out.Some? && HasOpen(found, at) ==>
        exists k: nat :: IsFirstOpenOf(found, k, at) && ran.out.value == found.mrs[k].iid)
      && (ran.calls == [] ==>
        ran.forge == if Heard(remote, FindCall) && !HasOpen(found, at) then met else found)
  {
    hide IsOpening;
    RequestCalls(f, at, target, remote);
    var ran, found := EnsureRequest(f, at, target, remote), remote.others(FindCall, f);
    var k := FirstOpen(found.mrs, at);
    assert k < |found.mrs| <==> HasOpen(found, at) by {
      if k < |found.mrs| {
        assert IsOpenOf(found.mrs[k], at);
      }
    }
    assert k < |found.mrs| ==> IsFirstOpenOf(found, k, at);
    if ran.calls != [] {
      OpeningMeans(ran.calls[0], at, target);
    }
    hide FirstOpen;
  }

  /** The commit goes to the branch, with these files, if the branch is there when it comes. */
  lemma CommitDecides(f: Forge, at: Ref, locate: Locate, files: Batch, remote: Remote)
    ensures
      var ran := Ask(f, remote, CommitCall, CommitAct(locate, at, files));
      var met := remote.others(CommitCall, f);
      && (ran.out <==> Heard(remote, CommitCall) && at in met.trees)
      && (ran.out <==> ran.calls != [])
      && (ran.calls != [] ==>
        && |ran.calls| == 1 && ran.calls[0].met == met && ran.calls[0].left == ran.forge
        && ran.calls[0].act.CommitAct? && IsCommit(ran.calls[0], locate, at, files))
      && (ran.calls == [] ==> ran.forge == met)
  {
    hide IsCommit;
    var ran := Ask(f, remote, CommitCall, CommitAct(locate, at, files));
    if ran.calls != [] {
      CommitMeans(ran.calls[0], locate, at, files);
    }
    hide Apply;
  }

  /** The branch can be had: it is there, or it can be forked. */
  ghost predicate CanBranch(f: Forge, at: Ref, from: Branch, remote: Remote) {
    var looked := remote.others(LookCall, f);
    && Heard(remote, LookCall)
    && (at in looked.trees
        || (Heard(remote, BranchCall) && Ref(at.repo, from) in remote.others(BranchCall, looked).trees))
  }

  /** From the commit on: the request of the branch is found or opened. */
  ghost predicate EndsInRequest(left: Forge, rest: seq<Done>, out: Option<nat>, end: Forge, at: Ref, target: Branch,
                                remote: Remote)
  {
    var found := remote.others(FindCall, left);
    var met := remote.others(RequestCall, found);
    && (out.Some? <==> Heard(remote, FindCall) && (HasOpen(found, at) || Heard(remote, RequestCall)))
    && (rest != [] <==> Heard(remote, FindCall) && !HasOpen(found, at) && Heard(remote, RequestCall))
    && (rest != [] ==>
      && |rest| == 1 && rest[0].met == met && rest[0].left == end && IsOpening(rest[0], at, target)
      && out == Some(|met.mrs| + 1))
    && (out.Some? && HasOpen(found, at) ==>
      end == found && exists k: nat :: IsFirstOpenOf(found, k, at) && out.value == found.mrs[k].iid)
  }

  /** Publishing forks the branch of the task if it is missing, commits the files to it, and ends with its first
      open request or a new draft; each step meets what the others left since the one before. */
  lemma PublishDecides(f: Forge, card: TaskCard, w: RepoWorld, settings: Settings, files: Batch)
    ensures
      var ran, at := Publish(f, card, w, settings, files), Ref(card.targetRepo, "auto-task-" + card.taskId);
      var looked, main := w.remote.others(LookCall, f), Ref(card.targetRepo, settings.forkBase);
      && (!CanBranch(f, at, settings.forkBase, w.remote) ==> ran.calls == [] && ran.out == None)
      && (CanBranch(f, at, settings.forkBase, w.remote) ==>
        var n := if at in looked.trees then 0 else 1;
        && |ran.calls| >= n
        && (n == 1 ==> ran.calls[0].met == w.remote.others(BranchCall, looked) && IsFork(ran.calls[0], at, main))
        && var met := w.remote.others(CommitCall, if n == 1 then ran.calls[0].left else looked);
        if !Heard(w.remote, CommitCall) || at !in met.trees then |ran.calls| == n && ran.out == None
        else
          && |ran.calls| > n && ran.calls[n].met == met && IsCommit(ran.calls[n], w.coding.locate, at, files)
          && EndsInRequest(ran.calls[n].left, ran.calls[n + 1..], ran.out, ran.forge, at, card.targetBranch, w.remote))
  {
    hide IsFork, IsCommit, IsOpening, EnsureBranch, EnsureRequest, Ask, HasOpen, IsFirstOpenOf;
    var at := Ref(card.targetRepo, "auto-task-" + card.taskId);
    assert AutoBranch(card) == at;
    var branch := EnsureBranch(f, at, settings.forkBase, w.remote);
    var commit := Ask(branch.forge, w.remote, CommitCall, CommitAct(w.coding.locate, at, files));
    BranchDecides(f, at, settings.forkBase, w.remote);
    CommitDecides(branch.forge, at, w.coding.locate, files, w.remote);
    RequestDecides(commit.forge, at, card.targetBranch, w.remote);
    var ran := Publish(f, card, w, settings, files);
    if branch.out && commit.out {
      var request := EnsureRequest(commit.forge, at, card.targetBranch, w.remote);
      var n := |branch.calls|;
      assert ran.calls == branch.calls + commit.calls + request.calls;
      assert ran.calls[n + 1..] == request.calls;
      assert ran.calls[n] == commit.calls[0];
    }
  }

  // ---- The slice ----

  ghost predicate Listed(changes: seq<Change>, paths: seq<string>) {
    |paths| == |changes| && forall i :: 0 <= i < |paths| ==> paths[i] == changes[i].path
  }

  /** The fork base was fetched and the plan is usable, so that there is something to decide on. */
  ghost predicate Starts(f: Forge, card: TaskCard, w: RepoWorld, settings: Settings) {
    && Heard(w.remote, FetchCall)
    && Ref(card.targetRepo, settings.forkBase) in w.remote.others(FetchCall, f).trees
    && w.plan.Some? && forall i :: 0 <= i < |w.plan.value| ==> w.coding.locate(w.plan.value[i].path).Some?
  }

  /** What the coding loop gives on the fetched base. */
  function Generated(f: Forge, card: TaskCard, w: RepoWorld, settings: Settings): Option<Run>
    requires Ref(card.targetRepo, settings.forkBase) in w.remote.others(FetchCall, f).trees && w.plan.Some?
  {
    var base := w.remote.others(FetchCall, f).trees[Ref(card.targetRepo, settings.forkBase)];
    Generate(w.coding, w.plan.value, settings.maxCodeIterations, 1, base, [], map[])
  }

  /** Each outcome of a slice exactly when. It publishes if the level of the planned paths lets the agent act
      alone and generation ends without issues, and asks GitLab for nothing otherwise. */
  lemma SliceDecides(f: Forge, card: TaskCard, w: RepoWorld, settings: Settings, paths: seq<string>)
    requires w.plan.Some? ==> Listed(w.plan.value, paths)
    ensures
      var slice, met := Slice(f, card, w, settings), w.remote.others(FetchCall, f);
      var starts, level := Starts(f, card, w, settings), Level(card, paths, settings.risk);
      && (slice.out.RiskBlocked? <==> starts && level == Blocked)
      && (slice.out.NeedsHuman? <==> starts && level == High)
      && (slice.out.Raised? <==>
        !starts || (level in {Low, Medium} && Generated(f, card, w, settings).None?))
      && (slice.out.SelfCheckFailed? <==>
        && starts && level in {Low, Medium} && var run := Generated(f, card, w, settings);
        run.Some? && run.value.result.issues != [])
      && (slice.out.SelfCheckFailed? ==> slice.out.issues == Generated(f, card, w, settings).value.result.issues)
      && (slice.out.MrReady? || slice.out.Stranded? <==>
        && starts && level in {Low, Medium} && var run := Generated(f, card, w, settings);
        run.Some? && run.value.result.issues == [])
      && (!slice.out.MrReady? && !slice.out.Stranded? ==> slice.calls == [] && slice.forge == met)
      && (slice.out.MrReady? || slice.out.Stranded? ==>
        var coding := Generated(f, card, w, settings).value.result;
        var done := Publish(met, card, w, settings, coding.files);
        && slice.forge == done.forge && slice.calls == done.calls
        && slice.out.at == Ref(card.targetRepo, "auto-task-" + card.taskId)
        && (slice.out.MrReady? ==> done.out == Some(slice.out.iid) && slice.out.coding == coding)
        && (slice.out.Stranded? ==> done.out == None))
  {
    hide Level, Generate, Publish, AssessScope, Originals;
    if w.plan.Some? {
      assert PathsIn(w.plan.value) == paths;
    }
  }

  // ---- The scope budget ----

  /** The text a planned file had, if it is short enough to be read; nothing for any other path. */
  ghost predicate Reads(w: RepoWorld, base: Tree, changes: seq<Change>, was: string -> string) {
    forall p :: was(p) ==
      match w.coding.locate(p)
      case None => ""
      case Some(file) =>
        if file in base && w.bytes(base[file]) <= 1_000_000 && exists i :: 0 <= i < |changes| && changes[i].path == p
        then base[file] else ""
  }

  /** The counted lines are the sum over the files and the deletions, whatever their order and grouping. */
  lemma {:induction false} LinesAreSummed(w: RepoWorld, was: string -> string, e: Edit, p: string,
                                          files: Batch, more: Batch, deletions: seq<string>, others: seq<string>)
    ensures DiffLines(w, was, [], []) == 0
    ensures DiffLines(w, was, [e], []) == w.diff(was(e.path), e.content)
    ensures DiffLines(w, was, [], [p]) == w.lines(was(p))
    ensures DiffLines(w, was, files + more, deletions + others)
      == DiffLines(w, was, files, deletions) + DiffLines(w, was, more, others)
    decreases |more| + |others|
  {
    assert [e][..0] == [];
    assert [p][..0] == [];
    if more != [] {
      LinesAreSummed(w, was, e, p, files, more[..|more| - 1], deletions, others);
      assert (files + more)[..|files + more| - 1] == files + more[..|more| - 1];
    } else if others != [] {
      LinesAreSummed(w, was, e, p, files, more, deletions, others[..|others| - 1]);
      assert (deletions + others)[..|deletions + others| - 1] == deletions + others[..|others| - 1];
    } else {
      assert files + more == files && deletions + others == deletions;
    }
  }

  lemma ListedIff(changes: seq<Change>, p: string)
    ensures p in PathsIn(changes) <==> exists i :: 0 <= i < |changes| && changes[i].path == p
  {
    forall i | 0 <= i < |changes|
      ensures changes[i].path in PathsIn(changes)
    {
      assert PathsIn(changes)[i] == changes[i].path;
    }
  }

  /** A verdict counts lines and files, and names each limit that is exceeded. */
  lemma ScopeDecides(w: RepoWorld, base: Tree, changes: seq<Change>, files: Batch, deletions: seq<string>,
                     settings: Settings, was: string -> string)
    requires Reads(w, base, changes, was)
    ensures
      var scope := AssessScope(w, Originals(w, base, changes), files, deletions, settings);
      && scope.diffLines == DiffLines(w, was, files, deletions) && scope.changedFiles == |files| + |deletions|
      && (scope.withinBudget <==> scope.reasons == [])
      && (TooManyLines(scope.diffLines, settings.maxDiffLinesAuto) in scope.reasons <==>
        scope.diffLines > settings.maxDiffLinesAuto)
      && (TooManyFiles(scope.changedFiles, settings.risk.maxChangedFilesMedium) in scope.reasons <==>
        scope.changedFiles > settings.risk.maxChangedFilesMedium)
      && forall r :: r in scope.reasons ==>
        || r == TooManyLines(scope.diffLines, settings.maxDiffLinesAuto)
        || r == TooManyFiles(scope.changedFiles, settings.risk.maxChangedFilesMedium)
  {
    var originals := Originals(w, base, changes);
    forall p
      ensures was(p) == if p in originals then originals[p] else ""
    {
      ListedIff(changes, p);
    }
    SameLines(w, p => if p in originals then originals[p] else "", was, files, deletions);
    hide DiffLines, Originals;
  }

  /** The scope of a published slice is about the fetched base and the files that were committed. */
  lemma SliceScopeDecides(f: Forge, card: TaskCard, w: RepoWorld, settings: Settings, was: string -> string)
    requires Slice(f, card, w, settings).out.MrReady? && Starts(f, card, w, settings)
    requires Reads(w, w.remote.others(FetchCall, f).trees[Ref(card.targetRepo, settings.forkBase)], w.plan.value, was)
    ensures
      var out := Slice(f, card, w, settings).out;
      && out.scope.diffLines == DiffLines(w, was, out.coding.files, out.coding.deletions)
      && out.scope.changedFiles == |out.coding.files| + |out.coding.deletions|
      && (out.scope.withinBudget <==>
        && out.scope.diffLines <= settings.maxDiffLinesAuto
        && out.scope.changedFiles <= settings.risk.maxChangedFilesMedium)
  {
    PublishingSlice(f, card, w, settings);
    PlanIsGated(card, w, settings);
    SliceScope(f, card, w, settings);
    var base, out := BaseOf(f, card, w, settings).value, Slice(f, card, w, settings).out;
    ScopeDecides(w, base, w.plan.value, out.coding.files, out.coding.deletions, settings, was);
    hide Slice, CodingRun, Generate, PlanGate, Originals, DiffLines, AssessScope, Publish, Level;
  }

  // ---- Lifting Draft ----

  /** The opinions the gates ask for were given. */
  ghost predicate Given(card: TaskCard, w: RepoWorld, settings: Settings, changes: seq<Change>) {
    w.review.Some? && (CallsRedTeam(card, changes, settings) ==> w.redTeam.Some?)
  }

  /** After a published slice the lift is asked for exactly if the slice is good; the run ends in an exception
      exactly if an opinion is missing or that call raises. */
  lemma LiftDecides(f: Forge, card: TaskCard, w: RepoWorld, settings: Settings)
    ensures
      var slice, ran := Slice(f, card, w, settings), PlanOneRepo(f, card, w, settings);
      && (!slice.out.MrReady? ==> ran == slice)
      && (slice.out.MrReady? ==>
        && w.plan.Some? && var changes := w.plan.value;
        && var good := IsGood(card, w, settings, changes, slice.out);
        && (good && Heard(w.remote, LiftCall) ==>
          && |ran.calls| == |slice.calls| + 1 && ran.calls[..|slice.calls|] == slice.calls
          && var d := Last(ran.calls);
          && d.met == w.remote.others(LiftCall, slice.forge) && d.left == ran.forge
          && IsLift(d, card.targetRepo, slice.out.iid, card.reviewer))
        && (!(good && Heard(w.remote, LiftCall)) ==>
          && ran.calls == slice.calls
          && ran.forge == if good then w.remote.others(LiftCall, slice.forge) else slice.forge)
        && ran.out == if !Given(card, w, settings, changes) || (good && !Heard(w.remote, LiftCall))
                      then Stranded(slice.out.at) else slice.out)
  {
    hide Slice, Approves, CallsRedTeam, GateRaises, Ready, PlanGate, IsLift, Level, Lifted;
    var slice := Slice(f, card, w, settings);
    if slice.out.MrReady? {
      SliceScope(f, card, w, settings);
      PlanIsGated(card, w, settings);
      GatesMean(card, w, settings);
      ReadyIff(f, card, w, settings);
      var asked := Ask(slice.forge, w.remote, LiftCall, LiftAct(card.targetRepo, slice.out.iid, card.reviewer));
      if asked.calls != [] {
        LiftMeans(asked.calls[0], card.targetRepo, slice.out.iid, card.reviewer);
      }
    }
  }

  /** The request of this repository with this number is a draft. */
  ghost predicate IsDraft(f: Forge, repo: Repo, iid: nat) {
    exists i :: 0 <= i < |f.mrs| && f.mrs[i].repo == repo && f.mrs[i].iid == iid && f.mrs[i].draft
  }

  /** A run makes a merge request ready exactly if its slice is good, the call is answered, and the request is still
      a draft when that call comes. */
  lemma LiftedIff(f: Forge, card: TaskCard, w: RepoWorld, settings: Settings)
    requires Numbered(f) && Polite(w.remote)
    ensures
      var slice, ran := Slice(f, card, w, settings), PlanOneRepo(f, card, w, settings);
      (exists d, i: nat :: d in ran.calls && BecameReady(d.met, d.left, i)) <==>
        && slice.out.MrReady? && w.plan.Some? && IsGood(card, w, settings, w.plan.value, slice.out)
        && Heard(w.remote, LiftCall)
        && IsDraft(w.remote.others(LiftCall, slice.forge), card.targetRepo, slice.out.iid)
  {
    hide Slice, PlanOneRepo, IsGood, KeepsRequests, Numbered, Polite, Names, IsLift;
    var ran := PlanOneRepo(f, card, w, settings);
    LiftDecides(f, card, w, settings);
    if d, i: nat :| d in ran.calls && BecameReady(d.met, d.left, i) {
      LiftIsOurs(f, card, w, settings, d, i);
      SliceOnlyDrafts(f, card, w, settings, d);
      LiftsDrafts(d, card.targetRepo, ran.out.iid, card.reviewer, i);
    }
    if Slice(f, card, w, settings).out.MrReady? && ran.calls != [] {
      DraftIsLifted(Last(ran.calls), card.targetRepo, Slice(f, card, w, settings).out.iid, card.reviewer);
    }
  }

  lemma LiftsDrafts(d: Done, repo: Repo, iid: nat, reviewer: Option<string>, i: nat)
    requires IsLift(d, repo, iid, reviewer) && BecameReady(d.met, d.left, i)
    ensures IsDraft(d.met, repo, iid)
  {
    assert d.left.mrs[i] != d.met.mrs[i];
  }

  lemma DraftIsLifted(d: Done, repo: Repo, iid: nat, reviewer: Option<string>)
    ensures IsLift(d, repo, iid, reviewer) && IsDraft(d.met, repo, iid) ==>
      exists i: nat :: BecameReady(d.met, d.left, i)
  {
    if IsLift(d, repo, iid, reviewer) && IsDraft(d.met, repo, iid) {
      var i: nat :| i < |d.met.mrs| && d.met.mrs[i].repo == repo && d.met.mrs[i].iid == iid && d.met.mrs[i].draft;
      assert BecameReady(d.met, d.left, i);
    }
  }

  lemma SliceOnlyDrafts(f: Forge, card: TaskCard, w: RepoWorld, settings: Settings, d: Done)
    requires d.act.LiftAct?
    ensures d !in Slice(f, card, w, settings).calls
  {
    SliceLeavesDrafts(f, card, w, settings);
    hide Slice, Answered;
  }

  // ---- Repairing a branch ----

  /** What the fix loop gives on the fetched branch. */
  function Repaired(f: Forge, at: Ref, w: World, remote: Remote, settings: Settings): Option<FixRun>
    requires at in remote.others(FetchCall, f).trees
  {
    Fix(w, settings.maxCodeIterations, remote.others(FetchCall, f).trees[at])
  }

  /** Each outcome of a repair exactly when. It commits, to the branch it fetched, if the fix loop ends without
      issues on a branch that failed a check before; it never makes any other call. */
  lemma RepairDecides(f: Forge, at: Ref, w: World, remote: Remote, settings: Settings)
    ensures
      var ran, met := SelfFix(f, at, w, remote, settings), remote.others(FetchCall, f);
      var fetched, now := Heard(remote, FetchCall) && at in met.trees, remote.others(CommitCall, met);
      var ends := fetched && Repaired(f, at, w, remote, settings).Some?;
      var red := fetched && !NoneRed(w.check(0, met.trees[at]));
      && (ran.out.NothingToFix? <==> ends && !red && SomePassed(w.check(0, met.trees[at])))
      && (ran.out.Unfixed? <==>
        && ends && (red ==> Repaired(f, at, w, remote, settings).value.result.issues != [])
        && (!red ==> !SomePassed(w.check(0, met.trees[at]))))
      && (ran.out.FixCommitted? <==>
        && ends && red && Repaired(f, at, w, remote, settings).value.result.issues == []
        && Heard(remote, CommitCall) && at in now.trees)
      && (ran.out.FixCommitted? <==> ran.calls != [])
      && (ran.out.FixCommitted? ==>
        && ran.out.coding == Repaired(f, at, w, remote, settings).value.result
        && |ran.calls| == 1 && ran.calls[0].met == now && ran.calls[0].left == ran.forge
        && IsCommit(ran.calls[0], w.locate, at, ran.out.coding.files))
  {
    var met := remote.others(FetchCall, f);
    if Heard(remote, FetchCall) && at in met.trees {
      var run := Repaired(f, at, w, remote, settings);
      FixFinds(w, settings.maxCodeIterations, met.trees[at]);
      if run.Some? {
        CommitDecides(met, at, w.locate, run.value.result.files, remote);
        if run.value.result.issues == [] && run.value.result.iterations > 0 {
          assert Repairs(w, met.trees[at], run.value.result.iterations);
        }
      }
    }
    hide IsCommit, Ask, Fix, SomePassed, NoneRed, RepairedBy, UsableUpTo, Touches;
  }

  // ---- A whole plan ----

  predicate EndsJob(out: Outcome) { out.Raised? || out.Stranded? }

  /** Planning one repository of the card ends so, and leaves GitLab so. */
  ghost predicate IsPlanned(f: Forge, card: TaskCard, repo: Repo, worlds: Repo -> RepoWorld, settings: Settings,
                            out: Outcome, left: Forge)
  {
    var one := PlanOneRepo(f, card.(targetRepo := repo), worlds(repo), settings);
    out == one.out && left == one.forge
  }

  /** The repositories are taken in order, each from what the one before left; the job goes on exactly as long as no
      repository ends in an exception. */
  lemma {:induction false} PlanDecides(f: Forge, card: TaskCard, repos: seq<Repo>, worlds: Repo -> RepoWorld,
                                       settings: Settings)
    returns (forges: seq<Forge>)
    ensures
      var done := PlanRepos(f, card, repos, worlds, settings);
      && |forges| == |done.out| + 1 && |done.out| <= |repos| && forges[0] == f && forges[|done.out|] == done.forge
      && (forall k :: 0 <= k < |done.out| ==>
        IsPlanned(forges[k], card, repos[k], worlds, settings, done.out[k], forges[k + 1]))
      && (forall k :: 0 <= k < |done.out| - 1 ==> !EndsJob(done.out[k]))
      && (|done.out| < |repos| ==> done.out != [] && EndsJob(Last(done.out)))
  {
    hide PlanOneRepo;
    if repos == [] {
      forges := [f];
    } else {
      var init, repo := repos[..|repos| - 1], Last(repos);
      var done := PlanRepos(f, card, init, worlds, settings);
      forges := PlanDecides(f, card, init, worlds, settings);
      forall k | 0 <= k < |done.out|
        ensures IsPlanned(forges[k], card, repos[k], worlds, settings, done.out[k], forges[k + 1])
      {
        assert init[k] == repos[k];
      }
      if !Ended(done.out) {
        assert |done.out| == |init|;
        var next := PlanNext(done.forge, card, repo, worlds, settings);
        assert IsPlanned(done.forge, card, repo, worlds, settings, next.out, next.forge);
        forges := forges + [next.forge];
      }
    }
    hide IsPlanned;
  }
}
