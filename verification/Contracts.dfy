/** The records that travel between the planning, coding and delivery modules
    (app/contracts.py). */
module Contracts {
  import opened Wrappers

  datatype RiskLevel = Low | Medium | High | Blocked

  datatype TaskType = Feature | Bugfix | Refactor | Research | Review | SecurityReview

  datatype Action = Create | Update | Delete

  datatype Change = Change(path: string, action: Action)

  datatype TaskCard = TaskCard(
    taskId: string,
    taskType: TaskType,
    targetRepo: string,
    targetRepos: seq<string>,
    contextRepos: seq<string>,
    targetBranch: string,
    businessGoal: string,
    acceptanceCriteria: string,
    affectedArea: seq<string>,
    riskHint: RiskLevel,
    reviewer: Option<string>,
    security: bool,
    contextKeywords: seq<string>)
  {
    /** The repositories that get changes: the main one, then the others, each once. */
    function AllRepos(): seq<string> {
      Distinct([targetRepo] + targetRepos)
    }

    /** Read-only context, without the repositories that get changes. */
    function ContextOnlyRepos(): seq<string> {
      Without(Distinct(contextRepos), AllRepos())
    }
  }

  /** Non-empty entries in order of first appearance. */
  function Distinct(names: seq<string>): seq<string> {
    if names == [] then []
    else
      var kept := Distinct(names[..|names| - 1]);
      if Last(names) == "" || Last(names) in kept then kept else kept + [Last(names)]
  }

  function Without(names: seq<string>, removed: seq<string>): seq<string> {
    if names == [] then []
    else if names[0] in removed then Without(names[1..], removed)
    else [names[0]] + Without(names[1..], removed)
  }

  lemma {:induction false} DistinctMeans(names: seq<string>)
    ensures forall n :: n in Distinct(names) <==> n in names && n != ""
    ensures forall i, j :: 0 <= i < j < |Distinct(names)| ==> Distinct(names)[i] != Distinct(names)[j]
  {
    if names != [] {
      DistinctMeans(names[..|names| - 1]);
      assert names == names[..|names| - 1] + [Last(names)];
    }
  }

  /** The order is that of first appearance: whatever stands before another name was named before it. */
  lemma {:induction false} DistinctKeepsOrder(names: seq<string>, i: nat, j: nat)
    requires i < j < |Distinct(names)|
    ensures exists k :: 0 <= k < |names| && names[k] == Distinct(names)[i] && Distinct(names)[j] !in names[..k + 1]
  {
    var init := names[..|names| - 1];
    DistinctMeans(init);
    if j < |Distinct(init)| {
      DistinctKeepsOrder(init, i, j);
      var k :| 0 <= k < |init| && init[k] == Distinct(init)[i] && Distinct(init)[j] !in init[..k + 1];
      assert init[..k + 1] == names[..k + 1];
    } else {
      assert Distinct(init)[i] in init;
      var k :| 0 <= k < |init| && init[k] == Distinct(init)[i];
      assert init[..k + 1] == names[..k + 1];
      assert Last(names) !in init;
    }
  }

  lemma {:induction false} WithoutMeans(names: seq<string>, removed: seq<string>)
    ensures forall n :: n in Without(names, removed) <==> n in names && n !in removed
  {
    if names != [] {
      WithoutMeans(names[1..], removed);
      assert names == [names[0]] + names[1..];
    }
  }

  /** No repository is both changed and read-only; each changed repository appears once; and
      every named repository is one or the other. */
  lemma ReposPartition(card: TaskCard)
    ensures forall r :: r in card.AllRepos() ==> r !in card.ContextOnlyRepos()
    ensures forall r :: r in card.AllRepos() || r in card.ContextOnlyRepos() <==>
      r != "" && (r == card.targetRepo || r in card.targetRepos || r in card.contextRepos)
    ensures forall i, j :: 0 <= i < j < |card.AllRepos()| ==> card.AllRepos()[i] != card.AllRepos()[j]
  {
    DistinctMeans([card.targetRepo] + card.targetRepos);
    DistinctMeans(card.contextRepos);
    WithoutMeans(Distinct(card.contextRepos), card.AllRepos());
  }
}
