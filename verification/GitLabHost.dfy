/** GitLab as the service sees it: branches, merge requests, and the calls that change them, each of which
    meets whatever other people, CI and other runs have made of GitLab since the call before
    (semantics of app/clients/fakes.py). */
module GitLabHost {
  import opened Wrappers
  import opened Coding

  type Repo = string
  type Branch = string
  datatype Ref = Ref(repo: Repo, branch: Branch)
  datatype Fork = Fork(at: Ref, from: Branch)
  datatype Commit = Commit(at: Ref, files: Batch)
  datatype MergeRequest = MergeRequest(
    iid: nat, repo: Repo, source: Branch, target: Branch, draft: bool, open: bool, reviewer: Option<string>)

  /** `trees` is the content of each branch; `forks` and `commits` are logs of what was asked. */
  datatype Forge = Forge(trees: map<Ref, Tree>, forks: seq<Fork>, commits: seq<Commit>, mrs: seq<MergeRequest>)

  // ---- What GitLab does ----

  /** A new branch starts with the content of the branch it is forked from; an existing one keeps its own. */
  function WithBranch(f: Forge, at: Ref, from: Branch): Forge
    requires Ref(at.repo, from) in f.trees
  {
    f.(trees := if at in f.trees then f.trees else f.trees[at := f.trees[Ref(at.repo, from)]],
       forks := f.forks + [Fork(at, from)])
  }

  function WithCommit(locate: Locate, f: Forge, at: Ref, files: Batch): Forge
    requires at in f.trees
  {
    f.(trees := f.trees[at := Written(locate, f.trees[at], files)], commits := f.commits + [Commit(at, files)])
  }

  /** Index of the first open merge request of a branch, or the number of merge requests. */
  function FirstOpen(mrs: seq<MergeRequest>, at: Ref): (k: nat)
    ensures k <= |mrs|
    ensures k < |mrs| ==> mrs[k].open && mrs[k].repo == at.repo && mrs[k].source == at.branch
    ensures forall i :: 0 <= i < k ==> !(mrs[i].open && mrs[i].repo == at.repo && mrs[i].source == at.branch)
  {
    if mrs == [] then 0
    else if mrs[0].open && mrs[0].repo == at.repo && mrs[0].source == at.branch then 0
    else 1 + FirstOpen(mrs[1..], at)
  }

  function DraftFor(f: Forge, at: Ref, target: Branch): MergeRequest {
    MergeRequest(|f.mrs| + 1, at.repo, at.branch, target, true, true, None)
  }

  /** Marks ready every merge request of the repository with that number. */
  function Lifted(mrs: seq<MergeRequest>, repo: Repo, iid: nat, reviewer: Option<string>): (out: seq<MergeRequest>)
    ensures |out| == |mrs|
    ensures forall i :: 0 <= i < |mrs| ==>
      out[i] ==
        if mrs[i].repo == repo && mrs[i].iid == iid then mrs[i].(draft := false, reviewer := reviewer) else mrs[i]
  {
    if mrs == [] then []
    else
      var m := Last(mrs);
      Lifted(mrs[..|mrs| - 1], repo, iid, reviewer)
      + [if m.repo == repo && m.iid == iid then m.(draft := false, reviewer := reviewer) else m]
  }

  // ---- Calls ----

  datatype Act =
    | ForkAct(at: Ref, from: Branch)
    | CommitAct(locate: Locate, at: Ref, files: Batch)
    | OpenAct(at: Ref, target: Branch)
    | LiftAct(repo: Repo, iid: nat, reviewer: Option<string>)

  predicate Possible(f: Forge, act: Act) {
    match act
    case ForkAct(at, from) => Ref(at.repo, from) in f.trees
    case CommitAct(_, at, _) => at in f.trees
    case OpenAct(_, _) => true
    case LiftAct(_, _, _) => true
  }

  function Apply(f: Forge, act: Act): Forge
    requires Possible(f, act)
  {
    match act
    case ForkAct(at, from) => WithBranch(f, at, from)
    case CommitAct(locate, at, files) => WithCommit(locate, f, at, files)
    case OpenAct(at, target) => f.(mrs := f.mrs + [DraftFor(f, at, target)])
    case LiftAct(repo, iid, reviewer) => f.(mrs := Lifted(f.mrs, repo, iid, reviewer))
  }

  /** The calls of one run, in their order. */
  datatype Call = FetchCall | LookCall | BranchCall | CommitCall | FindCall | RequestCall | LiftCall

  /** How GitLab behaves towards one run: what everybody else has made of it when a call comes in, and
      the call that raises, if any, having done nothing. */
  datatype Remote = Remote(others: (Call, Forge) -> Forge, refused: Option<Call>)

  /** A call that was answered: what it met, what it asked, what it left. */
  datatype Done = Done(met: Forge, act: Act, left: Forge)

  /** The effect of part of a run: GitLab at its end, the calls that changed it, and the outcome. */
  datatype Ran<+R> = Ran(forge: Forge, calls: seq<Done>, out: R)

  function Ask(f: Forge, remote: Remote, call: Call, act: Act): Ran<bool> {
    var met := remote.others(call, f);
    if remote.refused == Some(call) || !Possible(met, act) then Ran(met, [], false)
    else Ran(Apply(met, act), [Done(met, act, Apply(met, act))], true)
  }

  /** Look for the branch and fork it if it is missing. */
  function EnsureBranch(f: Forge, at: Ref, from: Branch, remote: Remote): Ran<bool> {
    var met := remote.others(LookCall, f);
    if remote.refused == Some(LookCall) then Ran(met, [], false)
    else if at in met.trees then Ran(met, [], true)
    else Ask(met, remote, BranchCall, ForkAct(at, from))
  }

  /** Look for an open merge request and open one if there is none; its number, unless a call raised. */
  function EnsureRequest(f: Forge, at: Ref, target: Branch, remote: Remote): Ran<Option<nat>> {
    var met := remote.others(FindCall, f);
    var k := FirstOpen(met.mrs, at);
    if remote.refused == Some(FindCall) then Ran(met, [], None)
    else if k < |met.mrs| then Ran(met, [], Some(met.mrs[k].iid))
    else
      var asked := Ask(met, remote, RequestCall, OpenAct(at, target));
      Ran(asked.forge, asked.calls, if asked.out then Some(|asked.forge.mrs|) else None)
  }

  // ---- Merge requests keep their identity ----

  ghost predicate Numbered(f: Forge) {
    forall i :: 0 <= i < |f.mrs| ==> f.mrs[i].iid == i + 1
  }

  /** Numbers are handed out in order, and a request keeps its repository and branches. */
  ghost predicate KeepsRequests(f: Forge, f': Forge) {
    && (Numbered(f) ==> Numbered(f'))
    && |f.mrs| <= |f'.mrs|
    && forall i :: 0 <= i < |f.mrs| ==>
      f'.mrs[i].(open := f.mrs[i].open, draft := f.mrs[i].draft, reviewer := f.mrs[i].reviewer) == f.mrs[i]
  }

  /** The others keep to GitLab's own rules; nothing else is asked of them. */
  ghost predicate Polite(remote: Remote) {
    forall call: Call, f: Forge :: KeepsRequests(f, remote.others(call, f))
  }

  lemma ApplyKeepsRequests(f: Forge, act: Act)
    requires Possible(f, act)
    ensures KeepsRequests(f, Apply(f, act))
  {
    hide Written;
  }

  lemma RequestsChain(f: Forge, g: Forge, h: Forge)
    requires KeepsRequests(f, g) && KeepsRequests(g, h)
    ensures KeepsRequests(f, h)
  {
    forall i | 0 <= i < |f.mrs|
      ensures h.mrs[i].(open := f.mrs[i].open, draft := f.mrs[i].draft, reviewer := f.mrs[i].reviewer) == f.mrs[i]
    {
      assert g.mrs[i].(open := f.mrs[i].open, draft := f.mrs[i].draft, reviewer := f.mrs[i].reviewer) == f.mrs[i];
    }
  }

  ghost predicate BecameReady(f: Forge, f': Forge, i: nat) {
    i < |f'.mrs| && !f'.mrs[i].draft && (i >= |f.mrs| || f.mrs[i].draft)
  }

  // ---- The object the program talks to ----

  class GitLab {
    var trees: map<Ref, Tree>
    var forks: seq<Fork>
    var commits: seq<Commit>
    var mrs: seq<MergeRequest>

    constructor (f: Forge)
      ensures State() == f
    {
      trees, forks, commits, mrs := f.trees, f.forks, f.commits, f.mrs;
    }

    function State(): Forge
      reads this
    {
      Forge(trees, forks, commits, mrs)
    }

    /** Everybody else has been at work. */
    method Meet(remote: Remote, call: Call) returns (ok: bool)
      modifies this
      ensures State() == remote.others(call, old(State()))
      ensures ok == (remote.refused != Some(call))
    {
      var met := remote.others(call, State());
      trees, forks, commits, mrs := met.trees, met.forks, met.commits, met.mrs;
      ok := remote.refused != Some(call);
    }

    method CreateBranch(at: Ref, from: Branch) returns (ok: bool)
      modifies `trees, `forks
      ensures ok == Possible(old(State()), ForkAct(at, from))
      ensures State() == if ok then WithBranch(old(State()), at, from) else old(State())
    {
      if Ref(at.repo, from) !in trees {
        return false;
      }
      ok := true;
      if at !in trees {
        trees := trees[at := trees[Ref(at.repo, from)]];
      }
      forks := forks + [Fork(at, from)];
    }

    method CommitFiles(locate: Locate, at: Ref, files: Batch) returns (ok: bool)
      modifies `trees, `commits
      ensures ok == Possible(old(State()), CommitAct(locate, at, files))
      ensures State() == if ok then WithCommit(locate, old(State()), at, files) else old(State())
    {
      if at !in trees {
        return false;
      }
      ok := true;
      trees := trees[at := Written(locate, trees[at], files)];
      commits := commits + [Commit(at, files)];
    }

    /** The number of the first open merge request of a branch. */
    method FindOpenMr(at: Ref) returns (iid: Option<nat>)
      ensures iid == var k := FirstOpen(mrs, at); if k < |mrs| then Some(mrs[k].iid) else None
    {
      for k := 0 to |mrs|
        invariant forall i :: 0 <= i < k ==> !(mrs[i].open && mrs[i].repo == at.repo && mrs[i].source == at.branch)
      {
        if mrs[k].repo == at.repo && mrs[k].source == at.branch && mrs[k].open {
          return Some(mrs[k].iid);
        }
      }
      return None;
    }

    method CreateDraftMr(at: Ref, target: Branch) returns (iid: nat)
      modifies `mrs
      ensures iid == old(|mrs|) + 1
      ensures mrs == old(mrs) + [DraftFor(old(State()), at, target)]
    {
      iid := |mrs| + 1;
      mrs := mrs + [MergeRequest(iid, at.repo, at.branch, target, true, true, None)];
    }

    method MarkMrReady(repo: Repo, iid: nat, reviewer: Option<string>)
      modifies `mrs
      ensures mrs == Lifted(old(mrs), repo, iid, reviewer)
    {
      for k := 0 to |mrs|
        invariant |mrs| == old(|mrs|)
        invariant forall i :: 0 <= i < k ==> mrs[i] == Lifted(old(mrs), repo, iid, reviewer)[i]
        invariant forall i :: k <= i < |mrs| ==> mrs[i] == old(mrs)[i]
      {
        if mrs[k].repo == repo && mrs[k].iid == iid {
          mrs := mrs[k := mrs[k].(draft := false, reviewer := reviewer)];
        }
      }
    }
  }
}
