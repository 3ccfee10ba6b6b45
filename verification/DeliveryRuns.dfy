/** Repeated and concurrent delivery: what the calls of any number of plans and repairs keep on GitLab,
    however they interleave, with people and CI working on the same repositories in between
    (app/orchestrator.py, app/clients/fakes.py). */
module DeliveryRuns {
  import opened Wrappers
  import opened Contracts
  import opened Coding
  import opened GitLabHost
  import opened Delivery

  // ---- What one run asks for ----

  /** Everything outside `repos` is as it was; merge requests keep their identity; what is new
      belongs to `repos`. */
  ghost predicate Confined(f: Forge, f': Forge, repos: set<Repo>) {
    && (forall at: Ref :: at.repo !in repos ==> SameBranch(f, f', at))
    && f.trees.Keys <= f'.trees.Keys
    && f.commits <= f'.commits && (forall i :: |f.commits| <= i < |f'.commits| ==> f'.commits[i].at.repo in repos)
    && f.forks <= f'.forks && (forall i :: |f.forks| <= i < |f'.forks| ==> f'.forks[i].at.repo in repos)
    && |f.mrs| <= |f'.mrs|
    && (forall i :: 0 <= i < |f.mrs| ==> SameRequest(f.mrs[i], f'.mrs[i], repos))
    && (forall i :: |f.mrs| <= i < |f'.mrs| ==> f'.mrs[i].repo in repos)
  }

  ghost predicate SameRequest(m: MergeRequest, m': MergeRequest, repos: set<Repo>) {
    && m' == m.(draft := m'.draft, reviewer := m'.reviewer)
    && (m.repo !in repos ==> m' == m)
    && (m'.draft ==> m.draft)
  }

  function RepoOf(act: Act): Repo {
    match act
    case ForkAct(at, _) => at.repo
    case CommitAct(_, at, _) => at.repo
    case OpenAct(at, _) => at.repo
    case LiftAct(repo, _, _) => repo
  }

  lemma CallIsConfined(d: Done, repos: set<Repo>)
    requires Answered(d) && RepoOf(d.act) in repos
    ensures Confined(d.met, d.left, repos)
  {
    hide Written;
  }

  /** The calls of one repository's run, and none unless it ends with a merge request or an exception after
      publishing began. */
  lemma RunCalls(f: Forge, card: TaskCard, w: RepoWorld, settings: Settings)
    ensures
      var ran := PlanOneRepo(f, card, w, settings);
      && (forall d :: d in ran.calls ==>
        && Answered(d) && RepoOf(d.act) == card.targetRepo
        && (d.act.ForkAct? ==> d.act == ForkAct(AutoBranch(card), settings.forkBase))
        && (d.act.CommitAct? ==> d.act.at == AutoBranch(card))
        && (d.act.OpenAct? ==> d.act.at == AutoBranch(card)))
      && (!ran.out.MrReady? && !ran.out.Stranded? ==> ran.calls == [])
  {
    hide Slice, Publish, CodingRun, Apply, Possible, GateRaises, Ready;
    var slice := Slice(f, card, w, settings);
    QuietSlice(f, card, w, settings);
    if slice.out.MrReady? || slice.out.Stranded? {
      PublishingSlice(f, card, w, settings);
      PublishCalls(w.remote.others(FetchCall, f), card, w, settings,
                   CodingRun(f, card, w, settings).value.result.files);
    }
    if slice.out.MrReady? {
      AskCalls(slice.forge, w.remote, LiftCall, LiftAct(card.targetRepo, slice.out.iid, card.reviewer));
    }
    hide Ask;
  }

  /** Every call of one repository's run changes only that repository, and there is none unless the run ends
      with a merge request or an exception after publishing began. */
  lemma PlanOneRepoConfined(f: Forge, card: TaskCard, w: RepoWorld, settings: Settings)
    ensures
      var ran := PlanOneRepo(f, card, w, settings);
      && (forall d :: d in ran.calls ==> Confined(d.met, d.left, {card.targetRepo}))
      && (!ran.out.MrReady? && !ran.out.Stranded? ==> ran.calls == [])
  {
    hide Confined, PlanOneRepo, Answered;
    RunCalls(f, card, w, settings);
    forall d | d in PlanOneRepo(f, card, w, settings).calls
      ensures Confined(d.met, d.left, {card.targetRepo})
    {
      CallIsConfined(d, {card.targetRepo});
    }
  }

  lemma {:induction false} PlanReposConfined(f: Forge, card: TaskCard, repos: seq<Repo>, worlds: Repo -> RepoWorld,
                                             settings: Settings)
    ensures forall d :: d in PlanRepos(f, card, repos, worlds, settings).calls ==> Answered(d) && RepoOf(d.act) in repos
  {
    hide PlanOneRepo, Answered;
    if repos != [] {
      var init, repo := repos[..|repos| - 1], Last(repos);
      PlanReposConfined(f, card, init, worlds, settings);
      RunCalls(PlanRepos(f, card, init, worlds, settings).forge, card.(targetRepo := repo), worlds(repo), settings);
    }
  }

  /** Every call of a plan changes only repositories the card asks to change, never a context-only one. */
  lemma PlanIsConfined(f: Forge, card: TaskCard, worlds: Repo -> RepoWorld, settings: Settings)
    ensures
      forall d :: d in ExecutePlan(f, card, worlds, settings).calls ==>
        && Confined(d.met, d.left, set r | r in card.AllRepos())
        && forall at: Ref :: at.repo in card.ContextOnlyRepos() ==> SameBranch(d.met, d.left, at)
  {
    PlanReposConfined(f, card, card.AllRepos(), worlds, settings);
    ReposPartition(card);
    hide PlanRepos, Answered, TaskCard.AllRepos, TaskCard.ContextOnlyRepos;
    forall d | d in ExecutePlan(f, card, worlds, settings).calls
      ensures Confined(d.met, d.left, set r | r in card.AllRepos())
    {
      CallIsConfined(d, set r | r in card.AllRepos());
    }
  }

  // ---- Histories ----

  ghost predicate OneOpenPerBranch(f: Forge) {
    forall i, j :: 0 <= i < j < |f.mrs| && f.mrs[i].open && f.mrs[j].open ==>
      Ref(f.mrs[i].repo, f.mrs[i].source) != Ref(f.mrs[j].repo, f.mrs[j].source)
  }

  /** What people and CI may do: anything to branches, deleting them included, and to commits; open,
      close, reopen and edit merge requests, as long as GitLab's own rules hold: numbers are handed out in
      order, a request keeps its repository and branches, and they open no second request for a branch. */
  ghost predicate Outside(f: Forge, f': Forge) {
    f'.forks == f.forks && KeepsRequests(f, f') && (OneOpenPerBranch(f) ==> OneOpenPerBranch(f'))
  }

  ghost function Before(f: Forge, calls: seq<Done>, i: nat): Forge
    requires i <= |calls|
  {
    if i == 0 then f else calls[i - 1].left
  }

  type Relation = (Forge, Forge) -> bool

  /** Calls of the service, one after the other, with `others` before each of them and at the end. */
  ghost predicate Path(others: Relation, f: Forge, calls: seq<Done>, f': Forge) {
    && (forall i {:trigger calls[i].met} :: 0 <= i < |calls| ==>
      Answered(calls[i]) && others(Before(f, calls, i), calls[i].met))
    && others(Before(f, calls, |calls|), f')
  }

  /** A history of GitLab: the calls of any number of runs in any interleaving, with people and CI at work
      in between. */
  ghost predicate History(f: Forge, calls: seq<Done>, f': Forge) {
    Path((g: Forge, h: Forge) => Outside(g, h), f, calls, f')
  }

  lemma StepOf(f: Forge, calls: seq<Done>, f': Forge, i: nat)
    requires History(f, calls, f') && i < |calls|
    ensures Answered(calls[i]) && Outside(Before(f, calls, i), calls[i].met) && Before(f, calls, i + 1) == calls[i].left
  {
    hide Answered, Outside;
    assert Outside(Before(f, calls, i), calls[i].met);
  }

  lemma BeforeFirst(f: Forge, calls: seq<Done>)
    ensures Before(f, calls, 0) == f
  {
  }

  lemma EndOf(f: Forge, calls: seq<Done>, f': Forge)
    requires History(f, calls, f')
    ensures Outside(Before(f, calls, |calls|), f')
  {
  }

  // ---- A run is a path ----

  ghost predicate IsPreorder(others: Relation) {
    && (forall f :: others(f, f))
    && (forall f, g, h :: others(f, g) && others(g, h) ==> others(f, h))
  }

  /** Whatever else happens to GitLab during this run stays within the relation. */
  ghost predicate Obeys(remote: Remote, others: Relation) {
    forall call: Call, f: Forge :: others(f, remote.others(call, f))
  }

  lemma BeforeJoined(f: Forge, a: seq<Done>, g: Forge, b: seq<Done>, i: nat)
    requires i <= |a + b|
    ensures Before(f, a + b, i) == if i <= |a| then Before(f, a, i) else Before(g, b, i - |a|)
  {
    if 0 < i {
      assert (a + b)[i - 1] == if i <= |a| then a[i - 1] else b[i - 1 - |a|];
    }
  }

  lemma PathsJoin(others: Relation, f: Forge, a: seq<Done>, g: Forge, b: seq<Done>, h: Forge)
    requires IsPreorder(others) && Path(others, f, a, g) && Path(others, g, b, h)
    ensures Path(others, f, a + b, h)
  {
    hide Answered, Before;
    BeforeFirst(g, b);
    forall i | 0 <= i < |a + b|
      ensures Answered((a + b)[i]) && others(Before(f, a + b, i), (a + b)[i].met)
    {
      BeforeJoined(f, a, g, b, i);
      if i < |a| {
        assert others(Before(f, a, i), a[i].met);
      } else {
        assert others(Before(g, b, i - |a|), b[i - |a|].met);
      }
    }
    BeforeJoined(f, a, g, b, |a + b|);
  }

  lemma MeetIsPath(others: Relation, f: Forge, remote: Remote, call: Call)
    requires Obeys(remote, others)
    ensures Path(others, f, [], remote.others(call, f))
  {
  }

  lemma AskIsPath(others: Relation, f: Forge, remote: Remote, call: Call, act: Act)
    requires IsPreorder(others) && Obeys(remote, others)
    ensures var asked := Ask(f, remote, call, act); Path(others, f, asked.calls, asked.forge)
  {
    hide Apply;
    var met := remote.others(call, f);
    assert others(f, met);
  }

  lemma EnsureBranchIsPath(others: Relation, f: Forge, at: Ref, from: Branch, remote: Remote)
    requires IsPreorder(others) && Obeys(remote, others)
    ensures var done := EnsureBranch(f, at, from, remote); Path(others, f, done.calls, done.forge)
  {
    hide Path, Obeys, Ask, IsPreorder;
    var met := remote.others(LookCall, f);
    var asked := Ask(met, remote, BranchCall, ForkAct(at, from));
    MeetIsPath(others, f, remote, LookCall);
    AskIsPath(others, met, remote, BranchCall, ForkAct(at, from));
    PathsJoin(others, f, [], met, asked.calls, asked.forge);
    assert [] + asked.calls == asked.calls;
  }

  lemma EnsureRequestIsPath(others: Relation, f: Forge, at: Ref, target: Branch, remote: Remote)
    requires IsPreorder(others) && Obeys(remote, others)
    ensures var done := EnsureRequest(f, at, target, remote); Path(others, f, done.calls, done.forge)
  {
    hide Path, Obeys, Ask, IsPreorder;
    var met := remote.others(FindCall, f);
    var asked := Ask(met, remote, RequestCall, OpenAct(at, target));
    MeetIsPath(others, f, remote, FindCall);
    AskIsPath(others, met, remote, RequestCall, OpenAct(at, target));
    PathsJoin(others, f, [], met, asked.calls, asked.forge);
    assert [] + asked.calls == asked.calls;
  }

  lemma PublishIsPath(others: Relation, f: Forge, card: TaskCard, w: RepoWorld, settings: Settings, files: Batch)
    requires IsPreorder(others) && Obeys(w.remote, others)
    ensures var done := Publish(f, card, w, settings, files); Path(others, f, done.calls, done.forge)
  {
    hide Path, Obeys, Ask, EnsureBranch, EnsureRequest, IsPreorder;
    var at := AutoBranch(card);
    var branch := EnsureBranch(f, at, settings.forkBase, w.remote);
    var commit := Ask(branch.forge, w.remote, CommitCall, CommitAct(w.coding.locate, at, files));
    var request := EnsureRequest(commit.forge, at, card.targetBranch, w.remote);
    EnsureBranchIsPath(others, f, at, settings.forkBase, w.remote);
    AskIsPath(others, branch.forge, w.remote, CommitCall, CommitAct(w.coding.locate, at, files));
    EnsureRequestIsPath(others, commit.forge, at, card.targetBranch, w.remote);
    PathsJoin(others, f, branch.calls, branch.forge, commit.calls, commit.forge);
    PathsJoin(others, f, branch.calls + commit.calls, commit.forge, request.calls, request.forge);
    AskCalls(branch.forge, w.remote, CommitCall, CommitAct(w.coding.locate, at, files));
    assert branch.calls + [] == branch.calls;
  }

  lemma SliceIsPath(others: Relation, f: Forge, card: TaskCard, w: RepoWorld, settings: Settings)
    requires IsPreorder(others) && Obeys(w.remote, others)
    ensures var slice := Slice(f, card, w, settings); Path(others, f, slice.calls, slice.forge)
  {
    hide Path, Obeys, Slice, Publish, CodingRun, IsPreorder;
    var met, slice := w.remote.others(FetchCall, f), Slice(f, card, w, settings);
    MeetIsPath(others, f, w.remote, FetchCall);
    QuietSlice(f, card, w, settings);
    if slice.out.MrReady? || slice.out.Stranded? {
      PublishingSlice(f, card, w, settings);
      PublishIsPath(others, met, card, w, settings, CodingRun(f, card, w, settings).value.result.files);
      PathsJoin(others, f, [], met, slice.calls, slice.forge);
      assert [] + slice.calls == slice.calls;
    }
  }

  /** One repository's run changes GitLab by its listed calls and nothing else, whatever the others do in between;
      with others that do nothing, what it leaves is what the calls leave. */
  lemma RunIsPath(others: Relation, f: Forge, card: TaskCard, w: RepoWorld, settings: Settings)
    requires IsPreorder(others) && Obeys(w.remote, others)
    ensures var ran := PlanOneRepo(f, card, w, settings); Path(others, f, ran.calls, ran.forge)
  {
    hide Path, Obeys, Slice, Ask, GateRaises, Ready, IsPreorder;
    var slice := Slice(f, card, w, settings);
    SliceIsPath(others, f, card, w, settings);
    if slice.out.MrReady? {
      var act := LiftAct(card.targetRepo, slice.out.iid, card.reviewer);
      var lift := Ask(slice.forge, w.remote, LiftCall, act);
      AskIsPath(others, slice.forge, w.remote, LiftCall, act);
      PathsJoin(others, f, slice.calls, slice.forge, lift.calls, lift.forge);
    }
  }

  /** So does a repair, by at most one commit to its branch. */
  lemma RepairIsPath(others: Relation, f: Forge, at: Ref, w: World, remote: Remote, settings: Settings)
    requires IsPreorder(others) && Obeys(remote, others)
    ensures
      var ran := SelfFix(f, at, w, remote, settings);
      && Path(others, f, ran.calls, ran.forge) && |ran.calls| <= 1
      && forall d :: d in ran.calls ==> d.act.CommitAct? && d.act.at == at
  {
    hide Path, Obeys, Ask, Fix, IsPreorder;
    var met := remote.others(FetchCall, f);
    MeetIsPath(others, f, remote, FetchCall);
    if Fetched(f, at, remote).Some? {
      var run := Fix(w, settings.maxCodeIterations, Fetched(f, at, remote).value);
      if run.Some? {
        var act := CommitAct(w.locate, at, run.value.result.files);
        var commit := Ask(met, remote, CommitCall, act);
        AskIsPath(others, met, remote, CommitCall, act);
        AskCalls(met, remote, CommitCall, act);
        PathsJoin(others, f, [], met, commit.calls, commit.forge);
        assert [] + commit.calls == commit.calls;
      }
    }
  }

  lemma EmptyPath(others: Relation, f: Forge)
    requires IsPreorder(others)
    ensures Path(others, f, [], f)
  {
  }

  /** And a whole plan, over any list of repositories. */
  lemma {:induction false} PlanIsPath(others: Relation, f: Forge, card: TaskCard, repos: seq<Repo>,
                                      worlds: Repo -> RepoWorld, settings: Settings)
    requires IsPreorder(others) && forall r :: Obeys(worlds(r).remote, others)
    ensures var done := PlanRepos(f, card, repos, worlds, settings); Path(others, f, done.calls, done.forge)
  {
    hide Path, Obeys, PlanOneRepo, IsPreorder;
    if repos == [] {
      EmptyPath(others, f);
    } else {
      var done := PlanRepos(f, card, repos[..|repos| - 1], worlds, settings);
      PlanIsPath(others, f, card, repos[..|repos| - 1], worlds, settings);
      if !Ended(done.out) {
        var next := PlanNext(done.forge, card, Last(repos), worlds, settings);
        RunIsPath(others, done.forge, card.(targetRepo := Last(repos)), worlds(Last(repos)), settings);
        PathsJoin(others, f, done.calls, done.forge, next.calls, next.forge);
      }
    }
  }

  lemma OutsideIsPreorder()
    ensures IsPreorder((f: Forge, g: Forge) => Outside(f, g))
  {
    forall f
      ensures Outside(f, f)
    {
    }
    forall f, g, h | Outside(f, g) && Outside(g, h)
      ensures Outside(f, h)
    {
      RequestsChain(f, g, h);
    }
  }

  /** Nobody but people and CI, as far as this run is concerned. */
  ghost predicate Outsiders(remote: Remote) {
    Obeys(remote, (f: Forge, g: Forge) => Outside(f, g))
  }

  // ---- What every history keeps ----

  ghost predicate ForkedFromBase(f: Forge, base: Branch) {
    forall i :: 0 <= i < |f.forks| ==> f.forks[i].from == base
  }

  ghost predicate ForksBase(calls: seq<Done>, base: Branch) {
    forall d :: d in calls && d.act.ForkAct? ==> d.act.from == base
  }

  lemma CallKeeps(d: Done, base: Branch)
    requires Answered(d) && (d.act.ForkAct? ==> d.act.from == base)
    ensures Numbered(d.met) ==> Numbered(d.left)
    ensures ForkedFromBase(d.met, base) ==> ForkedFromBase(d.left, base)
  {
    hide Written, Lifted;
    ApplyKeepsRequests(d.met, d.act);
  }

  /** However the calls of plans and repairs interleave: requests stay numbered as opened, and every branch
      the service forked was forked from the fork base. */
  lemma {:induction false} InterleavedRunsKeep(f: Forge, calls: seq<Done>, f': Forge, base: Branch, n: nat)
    requires History(f, calls, f') && ForksBase(calls, base) && n <= |calls|
    requires Numbered(f) && ForkedFromBase(f, base)
    ensures Numbered(Before(f, calls, n)) && ForkedFromBase(Before(f, calls, n), base)
  {
    hide History, Before, Answered, OneOpenPerBranch, Numbered;
    BeforeFirst(f, calls);
    if n > 0 {
      InterleavedRunsKeep(f, calls, f', base, n - 1);
      assert calls[n - 1] in calls;
      StepOf(f, calls, f', n - 1);
      CallKeeps(calls[n - 1], base);
    }
  }

  /** The call meets what it presupposes: no branch, no open request. */
  ghost predicate Careful(d: Done) {
    && (d.act.ForkAct? ==> d.act.at !in d.met.trees)
    && (d.act.OpenAct? ==> FirstOpen(d.met.mrs, d.act.at) == |d.met.mrs|)
  }

  lemma OneOpenAfter(d: Done)
    requires Answered(d) && OneOpenPerBranch(d.met)
    ensures OneOpenPerBranch(d.left) <==> d.act.OpenAct? ==> FirstOpen(d.met.mrs, d.act.at) == |d.met.mrs|
  {
    hide Written;
    if d.act.OpenAct? && FirstOpen(d.met.mrs, d.act.at) < |d.met.mrs| {
      var k := FirstOpen(d.met.mrs, d.act.at);
      assert d.left.mrs[k] == d.met.mrs[k] && d.left.mrs[|d.met.mrs|] == DraftFor(d.met, d.act.at, d.act.target);
    }
  }

  ghost predicate OneOpenThroughout(f: Forge, calls: seq<Done>, n: nat)
    requires n <= |calls|
  {
    forall i :: 0 <= i <= n ==> OneOpenPerBranch(Before(f, calls, i))
  }

  ghost predicate OpensWhenNone(calls: seq<Done>, n: nat)
    requires n <= |calls|
  {
    forall i :: 0 <= i < n && calls[i].act.OpenAct? ==>
      FirstOpen(calls[i].met.mrs, calls[i].act.at) == |calls[i].met.mrs|
  }

  /** However calls interleave: a branch never has two open requests exactly if no request was opened while
      another one of its branch was open. */
  lemma {:induction false} OneOpenIff(f: Forge, calls: seq<Done>, f': Forge, n: nat)
    requires History(f, calls, f') && OneOpenPerBranch(f) && n <= |calls|
    ensures OneOpenThroughout(f, calls, n) <==> OpensWhenNone(calls, n)
  {
    hide History, Before, Answered, OneOpenPerBranch, FirstOpen, KeepsRequests;
    BeforeFirst(f, calls);
    if n > 0 {
      OneOpenIff(f, calls, f', n - 1);
      StepOf(f, calls, f', n - 1);
      if OneOpenPerBranch(Before(f, calls, n - 1)) {
        OneOpenAfter(calls[n - 1]);
      }
      assert OneOpenThroughout(f, calls, n) <==>
             OneOpenThroughout(f, calls, n - 1) && OneOpenPerBranch(Before(f, calls, n));
    }
  }

  ghost function ForksOf(f: Forge, at: Ref): set<nat> {
    set i | 0 <= i < |f.forks| && f.forks[i].at == at
  }

  ghost predicate ForkedAtMostOnce(f: Forge, at: Ref) {
    && (forall i, j :: i in ForksOf(f, at) && j in ForksOf(f, at) ==> i == j)
    && (forall i :: i in ForksOf(f, at) ==> at in f.trees)
  }

  /** Nobody deletes this branch. */
  ghost predicate Survives(f: Forge, calls: seq<Done>, at: Ref) {
    forall i :: 0 <= i < |calls| && at in Before(f, calls, i).trees ==> at in calls[i].met.trees
  }

  lemma CallForksOnce(d: Done, at: Ref)
    requires Answered(d) && Careful(d) && ForkedAtMostOnce(d.met, at)
    ensures ForkedAtMostOnce(d.left, at)
  {
    hide Written, Lifted, FirstOpen;
    forall i | i in ForksOf(d.left, at) && i < |d.met.forks|
      ensures i in ForksOf(d.met, at)
    {
      assert d.left.forks[i] == d.met.forks[i];
    }
  }

  /** A branch that nobody deletes is forked once, as long as no fork comes in when the branch has been made
      since the run looked. */
  lemma {:induction false} ForkedOnceUnlessDeleted(f: Forge, calls: seq<Done>, f': Forge, at: Ref, n: nat)
    requires History(f, calls, f') && n <= |calls| && Survives(f, calls, at)
    requires forall d :: d in calls ==> Careful(d)
    requires ForkedAtMostOnce(f, at)
    ensures ForkedAtMostOnce(Before(f, calls, n), at)
  {
    hide History, Before, Answered, OneOpenPerBranch, KeepsRequests, Careful;
    BeforeFirst(f, calls);
    if n > 0 {
      ForkedOnceUnlessDeleted(f, calls, f', at, n - 1);
      var prev, d := Before(f, calls, n - 1), calls[n - 1];
      StepOf(f, calls, f', n - 1);
      assert d in calls && Careful(d);
      assert at in prev.trees ==> at in d.met.trees;
      CallForksOnce(d, at);
    }
  }

  // ---- Runs that nobody gets in the way of ----

  /** Between looking and acting nobody makes this branch or opens a request for it. */
  ghost predicate Steady(remote: Remote, at: Ref) {
    && (forall f: Forge :: at !in f.trees ==> at !in remote.others(BranchCall, f).trees)
    && forall f: Forge :: FirstOpen(f.mrs, at) == |f.mrs| ==>
      FirstOpen(remote.others(RequestCall, f).mrs, at) == |remote.others(RequestCall, f).mrs|
  }

  lemma EnsureIsCareful(f: Forge, at: Ref, from: Branch, target: Branch, remote: Remote)
    requires Steady(remote, at)
    ensures forall d :: d in EnsureBranch(f, at, from, remote).calls ==> Careful(d)
    ensures forall d :: d in EnsureRequest(f, at, target, remote).calls ==> Careful(d)
  {
    hide Apply, FirstOpen;
  }

  lemma PublishIsCareful(f: Forge, card: TaskCard, w: RepoWorld, settings: Settings, files: Batch)
    requires Steady(w.remote, AutoBranch(card))
    ensures forall d :: d in Publish(f, card, w, settings, files).calls ==> Careful(d)
  {
    hide Steady, EnsureBranch, EnsureRequest, Ask, AutoBranch, FirstOpen;
    var at := AutoBranch(card);
    var branch := EnsureBranch(f, at, settings.forkBase, w.remote);
    var commit := Ask(branch.forge, w.remote, CommitCall, CommitAct(w.coding.locate, at, files));
    EnsureIsCareful(f, at, settings.forkBase, card.targetBranch, w.remote);
    AskCalls(branch.forge, w.remote, CommitCall, CommitAct(w.coding.locate, at, files));
    EnsureIsCareful(commit.forge, at, settings.forkBase, card.targetBranch, w.remote);
  }

  lemma RunIsCareful(f: Forge, card: TaskCard, w: RepoWorld, settings: Settings)
    requires Steady(w.remote, AutoBranch(card))
    ensures forall d :: d in PlanOneRepo(f, card, w, settings).calls ==> Careful(d)
  {
    hide Slice, Publish, CodingRun, Ask, GateRaises, Ready, Steady, FirstOpen, AutoBranch;
    var slice := Slice(f, card, w, settings);
    QuietSlice(f, card, w, settings);
    if slice.out.MrReady? || slice.out.Stranded? {
      PublishingSlice(f, card, w, settings);
      PublishIsCareful(w.remote.others(FetchCall, f), card, w, settings,
                       CodingRun(f, card, w, settings).value.result.files);
    }
    if slice.out.MrReady? {
      AskCalls(slice.forge, w.remote, LiftCall, LiftAct(card.targetRepo, slice.out.iid, card.reviewer));
    }
  }

  ghost predicate ForgeInv(f: Forge, settings: Settings) {
    Numbered(f) && OneOpenPerBranch(f) && ForkedFromBase(f, settings.forkBase)
  }

  lemma CarefulHistoryKeeps(f: Forge, calls: seq<Done>, f': Forge, settings: Settings)
    requires History(f, calls, f') && ForksBase(calls, settings.forkBase) && (forall d :: d in calls ==> Careful(d))
    ensures ForgeInv(f, settings) ==> ForgeInv(f', settings)
  {
    hide History, Before, Answered, OneOpenPerBranch, FirstOpen, Numbered;
    if ForgeInv(f, settings) {
      EndOf(f, calls, f');
      InterleavedRunsKeep(f, calls, f', settings.forkBase, |calls|);
      OneOpenIff(f, calls, f', |calls|);
      assert forall i :: 0 <= i < |calls| ==> calls[i] in calls;
      assert OneOpenPerBranch(Before(f, calls, |calls|));
    }
  }

  /** Wherever a call fails, and whatever people do except making the branch or a request for it between
      looking and acting: a run forks only a missing branch, opens a request only if none is open, and keeps
      the invariant. */
  lemma PlanOneRepoKeeps(f: Forge, card: TaskCard, w: RepoWorld, settings: Settings)
    requires Outsiders(w.remote) && Steady(w.remote, AutoBranch(card))
    ensures
      var ran := PlanOneRepo(f, card, w, settings);
      && History(f, ran.calls, ran.forge) && ForksBase(ran.calls, settings.forkBase)
      && (forall d :: d in ran.calls ==> Careful(d))
      && (ForgeInv(f, settings) ==> ForgeInv(ran.forge, settings))
  {
    hide PlanOneRepo, History, Steady, ForgeInv, Careful, Answered, Path, Obeys, IsPreorder;
    var ran := PlanOneRepo(f, card, w, settings);
    OutsideIsPreorder();
    RunIsPath((g: Forge, h: Forge) => Outside(g, h), f, card, w, settings);
    PathIsHistory(f, ran.calls, ran.forge);
    RunIsCareful(f, card, w, settings);
    RunCalls(f, card, w, settings);
    CarefulHistoryKeeps(f, ran.calls, ran.forge, settings);
  }

  lemma PathIsHistory(f: Forge, calls: seq<Done>, f': Forge)
    requires Path((g: Forge, h: Forge) => Outside(g, h), f, calls, f')
    ensures History(f, calls, f')
  {
  }

  lemma HistoriesJoin(f: Forge, a: seq<Done>, g: Forge, b: seq<Done>, h: Forge)
    requires History(f, a, g) && History(g, b, h)
    ensures History(f, a + b, h)
  {
    OutsideIsPreorder();
    PathsJoin((x: Forge, y: Forge) => Outside(x, y), f, a, g, b, h);
  }

  lemma EmptyHistory(f: Forge)
    ensures History(f, [], f)
  {
  }

  /** The same for a whole plan, over any list of repositories. */
  lemma {:induction false} PlanKeeps(f: Forge, card: TaskCard, repos: seq<Repo>, worlds: Repo -> RepoWorld,
                                     settings: Settings)
    requires forall r :: Outsiders(worlds(r).remote) && Steady(worlds(r).remote, AutoBranch(card.(targetRepo := r)))
    ensures
      var done := PlanRepos(f, card, repos, worlds, settings);
      && History(f, done.calls, done.forge) && ForksBase(done.calls, settings.forkBase)
      && (forall d :: d in done.calls ==> Careful(d))
      && (ForgeInv(f, settings) ==> ForgeInv(done.forge, settings))
  {
    hide PlanOneRepo, History, Outsiders, Steady, ForgeInv, Careful;
    if repos == [] {
      EmptyHistory(f);
    } else {
      var done := PlanRepos(f, card, repos[..|repos| - 1], worlds, settings);
      PlanKeeps(f, card, repos[..|repos| - 1], worlds, settings);
      if !Ended(done.out) {
        var next := PlanNext(done.forge, card, Last(repos), worlds, settings);
        PlanOneRepoKeeps(done.forge, card.(targetRepo := Last(repos)), worlds(Last(repos)), settings);
        HistoriesJoin(f, done.calls, done.forge, next.calls, next.forge);
      }
    }
  }

  // ---- After the lift ----

  /** Nothing in this step changes what the branch holds. */
  ghost predicate LeavesBranch(prev: Forge, d: Done, at: Ref) {
    && SameBranch(prev, d.met, at)
    && (d.act.CommitAct? && d.act.at == at ==>
      at in d.met.trees && NothingNew(d.act.locate, d.met.trees[at], d.act.files, []))
  }

  lemma CallLeavesIff(prev: Forge, d: Done, at: Ref)
    requires Answered(d) && at in prev.trees
    ensures LeavesBranch(prev, d, at) <==> SameBranch(prev, d.met, at) && SameBranch(prev, d.left, at)
  {
    if d.act.CommitAct? && d.act.at == at && at in d.met.trees {
      HidesIff(d.act.locate, d.met.trees[at], d.act.files, []);
    }
    hide Written, NothingNew, Lifted, FirstOpen;
  }

  ghost predicate HoldsThroughout(f: Forge, calls: seq<Done>, at: Ref, k: nat, n: nat)
    requires k <= n <= |calls|
  {
    && (forall m :: k <= m < n ==> SameBranch(Before(f, calls, k), calls[m].met, at))
    && (forall m :: k <= m <= n ==> SameBranch(Before(f, calls, k), Before(f, calls, m), at))
  }

  /** What a branch held after call `k`, the lift for instance, it holds ever since exactly if other people left
      it alone and every later commit of the service, reviewed or not, brought nothing new to it. */
  lemma {:induction false} StillAcceptedIff(f: Forge, calls: seq<Done>, f': Forge, at: Ref, k: nat, n: nat)
    requires History(f, calls, f') && k <= n <= |calls| && at in Before(f, calls, k).trees
    ensures HoldsThroughout(f, calls, at, k, n) <==>
      forall m :: k <= m < n ==> LeavesBranch(Before(f, calls, m), calls[m], at)
  {
    hide History, LeavesBranch, Answered, Before, Outside;
    BeforeFirst(f, calls);
    if k < n {
      StillAcceptedIff(f, calls, f', at, k, n - 1);
      var prev, d := Before(f, calls, n - 1), calls[n - 1];
      StepOf(f, calls, f', n - 1);
      if at in prev.trees {
        CallLeavesIff(prev, d, at);
      }
      assert HoldsThroughout(f, calls, at, k, n) <==>
             && HoldsThroughout(f, calls, at, k, n - 1)
             && SameBranch(Before(f, calls, k), d.met, at) && SameBranch(Before(f, calls, k), d.left, at);
    }
  }

  /** The service never makes a ready request a draft again, whatever it commits onto its branch. */
  lemma {:induction false} ReadyStaysReady(f: Forge, calls: seq<Done>, f': Forge, i: nat, k: nat, n: nat)
    requires History(f, calls, f') && k <= n <= |calls|
    requires i < |Before(f, calls, k).mrs| && !Before(f, calls, k).mrs[i].draft
    requires forall m :: k <= m < n && i < |Before(f, calls, m).mrs| && !Before(f, calls, m).mrs[i].draft ==>
      i < |calls[m].met.mrs| && !calls[m].met.mrs[i].draft
    ensures i < |Before(f, calls, n).mrs| && !Before(f, calls, n).mrs[i].draft
  {
    hide History, Before, Outside, Answered;
    BeforeFirst(f, calls);
    if k < n {
      ReadyStaysReady(f, calls, f', i, k, n - 1);
      StepOf(f, calls, f', n - 1);
      CallKeepsReady(calls[n - 1], i);
    }
  }

  lemma CallKeepsReady(d: Done, i: nat)
    requires Answered(d) && i < |d.met.mrs| && !d.met.mrs[i].draft
    ensures i < |d.left.mrs| && !d.left.mrs[i].draft
  {
    hide Written;
  }
}
