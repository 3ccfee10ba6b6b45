/** Who may say /go (app/go_authorizer.py). */
module GoAuthorizer {
  import opened Wrappers

  datatype Rule = Maintainer | Reviewer | ResponsibleUser | Creator | AiGoApprovers

  const PRIORITY: seq<Rule> := [Maintainer, Reviewer, ResponsibleUser, Creator, AiGoApprovers]
  const HIGH_RISK_RULES: set<Rule> := {Maintainer, Reviewer}

  // An absent user id is the empty string.
  datatype GoContext = GoContext(
    user: string, author: string, reviewer: string, assignee: string, approvers: seq<string>, isMaintainer: bool)

  datatype Authorization = Authorization(authorized: bool, rule: Option<Rule>, highRiskApplied: bool)

  predicate Holds(ctx: GoContext, rule: Rule) {
    ctx.user != "" &&
    match rule
    case Maintainer => ctx.isMaintainer
    case Reviewer => ctx.user == ctx.reviewer
    case ResponsibleUser => ctx.user == ctx.assignee
    case Creator => ctx.user == ctx.author
    case AiGoApprovers => ctx.user in ctx.approvers
  }

  /** Collects the rules one test at a time. */
  method MatchedRules(ctx: GoContext) returns (rules: set<Rule>)
    ensures forall r :: r in rules <==> Holds(ctx, r)
  {
    rules := {};
    if ctx.user == "" {
      return;
    }
    if ctx.isMaintainer { rules := rules + {Maintainer}; }
    if ctx.reviewer != "" && ctx.user == ctx.reviewer { rules := rules + {Reviewer}; }
    if ctx.assignee != "" && ctx.user == ctx.assignee { rules := rules + {ResponsibleUser}; }
    if ctx.author != "" && ctx.user == ctx.author { rules := rules + {Creator}; }
    if ctx.user in ctx.approvers { rules := rules + {AiGoApprovers}; }
  }

  function Matched(ctx: GoContext): set<Rule> {
    set r | r in PRIORITY && Holds(ctx, r)
  }

  function FirstOf(rules: seq<Rule>, matched: set<Rule>): Option<Rule> {
    if rules == [] then None else if rules[0] in matched then Some(rules[0]) else FirstOf(rules[1..], matched)
  }

  function Decide(matched: set<Rule>, highRisk: bool, highRiskRequiresMaintainer: bool): Authorization {
    var rule := FirstOf(PRIORITY, matched);
    var applied := highRisk && highRiskRequiresMaintainer;
    Authorization(rule.Some? && !(applied && matched * HIGH_RISK_RULES == {}), rule, applied)
  }

  method Authorize(ctx: GoContext, highRisk: bool, highRiskRequiresMaintainer: bool) returns (a: Authorization)
    ensures a == Decide(Matched(ctx), highRisk, highRiskRequiresMaintainer)
  {
    var matched := MatchedRules(ctx);
    MatchedMeans(ctx);
    assert matched == Matched(ctx);
    a := Decide(matched, highRisk, highRiskRequiresMaintainer);
  }

  lemma {:induction false} FirstIsStrongest(rules: seq<Rule>, matched: set<Rule>)
    ensures FirstOf(rules, matched).None? <==> forall i :: 0 <= i < |rules| ==> rules[i] !in matched
    ensures FirstOf(rules, matched).Some? ==>
      exists i :: 0 <= i < |rules| && rules[i] == FirstOf(rules, matched).value && rules[i] in matched
        && forall j :: 0 <= j < i ==> rules[j] !in matched
  {
    if rules != [] && rules[0] !in matched {
      FirstIsStrongest(rules[1..], matched);
      if FirstOf(rules[1..], matched).Some? {
        var i :| 0 <= i < |rules[1..]| && rules[1..][i] == FirstOf(rules[1..], matched).value
          && rules[1..][i] in matched
          && forall j :: 0 <= j < i ==> rules[1..][j] !in matched;
        assert rules[i + 1] == rules[1..][i];
        assert forall j :: 1 <= j < i + 1 ==> rules[j] == rules[1..][j - 1];
      }
      assert forall i :: 1 <= i < |rules| ==> rules[i] == rules[1..][i - 1];
    }
  }

  /** Position in the priority list. */
  function Place(r: Rule): (i: nat)
    ensures i < 5 && PRIORITY[i] == r
  {
    match r
    case Maintainer => 0
    case Reviewer => 1
    case ResponsibleUser => 2
    case Creator => 3
    case AiGoApprovers => 4
  }

  lemma MatchedMeans(ctx: GoContext)
    ensures forall r :: r in Matched(ctx) <==> Holds(ctx, r)
  {
    forall r | Holds(ctx, r)
      ensures r in Matched(ctx)
    {
      assert PRIORITY[Place(r)] == r;
    }
  }

  /** Exactly who is let through: a known user who is a maintainer, the reviewer, the responsible user, the author
      or an approver, and for high risk a maintainer or the reviewer. The first of these that fits is recorded. */
  lemma AuthorizedIff(ctx: GoContext, highRisk: bool, maintainerNeeded: bool)
    ensures
      var a := Decide(Matched(ctx), highRisk, maintainerNeeded);
      && (a.authorized <==>
        && ctx.user != ""
        && (ctx.isMaintainer || ctx.user in {ctx.reviewer, ctx.assignee, ctx.author} || ctx.user in ctx.approvers)
        && (highRisk && maintainerNeeded ==> ctx.isMaintainer || ctx.user == ctx.reviewer))
      && a.rule ==
        (if ctx.user == "" then None
         else if ctx.isMaintainer then Some(Maintainer)
         else if ctx.user == ctx.reviewer then Some(Reviewer)
         else if ctx.user == ctx.assignee then Some(ResponsibleUser)
         else if ctx.user == ctx.author then Some(Creator)
         else if ctx.user in ctx.approvers then Some(AiGoApprovers)
         else None)
      && (a.highRiskApplied <==> highRisk && maintainerNeeded)
  {
    MatchedMeans(ctx);
    FirstIsStrongest(PRIORITY, Matched(ctx));
    forall i | 0 <= i < 5
      ensures PRIORITY[i] in Matched(ctx) <==> Holds(ctx, PRIORITY[i])
    {
    }
    assert PRIORITY[0] == Maintainer && PRIORITY[1] == Reviewer && PRIORITY[2] == ResponsibleUser;
    assert PRIORITY[3] == Creator && PRIORITY[4] == AiGoApprovers;
    StrongMatched(Matched(ctx));
    hide Matched, FirstOf;
  }

  lemma StrongMatched(matched: set<Rule>)
    ensures matched * HIGH_RISK_RULES != {} <==> Maintainer in matched || Reviewer in matched
  {
    if Maintainer in matched {
      assert Maintainer in matched * HIGH_RISK_RULES;
    }
    if Reviewer in matched {
      assert Reviewer in matched * HIGH_RISK_RULES;
    }
  }
}
