/** The score of an analysis: the matched rules, one per signal group, and the context. */
module Scoring {
  import opened Options

  /** The signal group is trimmed. */
  datatype Rule = Rule(id: string, group: string, weight: int)

  datatype Evidence = Evidence(kind: string, weight: int)

  function GroupOf(r: Rule): string {
    if r.group == "" then r.id else r.group
  }

  function Abs(x: int): int {
    if x < 0 then 0 - x else x
  }

  lemma AbsIs(x: int)
    ensures Abs(x) >= 0 && (Abs(x) == x || Abs(x) + x == 0)
  {
  }

  // ---------------------------------------------------------------- the stable sort by absolute weight

  ghost predicate Sorted(s: seq<Rule>) {
    forall i, k :: 0 <= i < k < |s| ==> Abs(s[i].weight) >= Abs(s[k].weight)
  }

  /** Put a rule before those of the same weight: it came before them. */
  function Insert(r: Rule, s: seq<Rule>): seq<Rule> {
    if s == [] || Abs(r.weight) >= Abs(s[0].weight) then [r] + s else [s[0]] + Insert(r, s[1..])
  }

  function StableSort(s: seq<Rule>): seq<Rule> {
    if s == [] then [] else Insert(s[0], StableSort(s[1..]))
  }

  function Pick(r: Rule, w: int): seq<Rule> {
    if Abs(r.weight) == w then [r] else []
  }

  /** The rules of an absolute weight, in order. */
  function OfWeight(s: seq<Rule>, w: int): seq<Rule> {
    if s == [] then [] else Pick(s[0], w) + OfWeight(s[1..], w)
  }

  lemma {:induction false} InsertElements(r: Rule, s: seq<Rule>)
    ensures multiset(Insert(r, s)) == multiset{r} + multiset(s)
  {
    if s == [] || Abs(r.weight) >= Abs(s[0].weight) {
    } else {
      InsertElements(r, s[1..]);
      assert s == [s[0]] + s[1..];
    }
  }

  lemma {:induction false} InsertSorts(r: Rule, s: seq<Rule>)
    requires Sorted(s)
    ensures Sorted(Insert(r, s))
    ensures forall i :: 0 <= i < |Insert(r, s)| ==>
                          Abs(Insert(r, s)[i].weight) <= Abs((if s == [] then r else s[0]).weight)
                          || Abs(Insert(r, s)[i].weight) <= Abs(r.weight)
  {
    if s == [] || Abs(r.weight) >= Abs(s[0].weight) {
    } else {
      InsertSorts(r, s[1..]);
    }
  }

  lemma {:induction false} InsertKeepsOrder(r: Rule, s: seq<Rule>, w: int)
    ensures OfWeight(Insert(r, s), w) == Pick(r, w) + OfWeight(s, w)
  {
    if s == [] || Abs(r.weight) >= Abs(s[0].weight) {
      assert ([r] + s)[1..] == s;
    } else {
      InsertKeepsOrder(r, s[1..], w);
      assert Insert(r, s)[1..] == Insert(r, s[1..]);
      assert Pick(s[0], w) == [] || Pick(r, w) == [];
      assert Pick(s[0], w) + Pick(r, w) == Pick(r, w) + Pick(s[0], w);
    }
  }

  /** It sorts, and keeps the rules of one weight in their order. */
  lemma {:induction false} SortSorts(s: seq<Rule>)
    ensures Sorted(StableSort(s)) && multiset(StableSort(s)) == multiset(s)
    ensures forall w :: OfWeight(StableSort(s), w) == OfWeight(s, w)
  {
    if s == [] {
    } else {
      SortSorts(s[1..]);
      InsertSorts(s[0], StableSort(s[1..]));
      InsertElements(s[0], StableSort(s[1..]));
      assert s == [s[0]] + s[1..];
      forall w ensures OfWeight(StableSort(s), w) == OfWeight(s, w) {
        InsertKeepsOrder(s[0], StableSort(s[1..]), w);
      }
    }
  }

  lemma {:induction false} OfWeightHead(s: seq<Rule>, i: nat)
    requires i < |s|
    ensures OfWeight(s, Abs(s[i].weight)) != []
    ensures Abs(OfWeight(s, Abs(s[i].weight))[0].weight) == Abs(s[i].weight)
  {
    if i == 0 {
    } else {
      OfWeightHead(s[1..], i - 1);
    }
  }

  lemma {:induction false} OfWeightIn(s: seq<Rule>, w: int)
    ensures OfWeight(s, w) != [] ==> exists i :: 0 <= i < |s| && Abs(s[i].weight) == w
  {
    if s == [] || Abs(s[0].weight) == w {
    } else {
      OfWeightIn(s[1..], w);
      if OfWeight(s, w) != [] {
        var i :| 0 <= i < |s[1..]| && Abs(s[1..][i].weight) == w;
        assert Abs(s[i + 1].weight) == w;
      }
    }
  }

  /** There is only one stable sort: whatever is sorted and keeps the order within a weight is it. */
  lemma {:induction false} SortUnique(s: seq<Rule>, r: seq<Rule>)
    requires Sorted(s) && Sorted(r)
    requires forall w :: OfWeight(s, w) == OfWeight(r, w)
    ensures s == r
  {
    if s == [] || r == [] {
      if s != [] {
        OfWeightHead(s, 0);
      }
      if r != [] {
        OfWeightHead(r, 0);
      }
    } else {
      OfWeightHead(s, 0);
      OfWeightHead(r, 0);
      OfWeightIn(r, Abs(s[0].weight));
      OfWeightIn(s, Abs(r[0].weight));
      assert Abs(s[0].weight) == Abs(r[0].weight);
      assert s[0] == OfWeight(s, Abs(s[0].weight))[0] == r[0];
      forall w ensures OfWeight(s[1..], w) == OfWeight(r[1..], w) {
        assert OfWeight(s, w) == OfWeight(r, w) && Pick(s[0], w) == Pick(r[0], w);
        assert OfWeight(s[1..], w) == OfWeight(s, w)[|Pick(s[0], w)|..];
        assert OfWeight(r[1..], w) == OfWeight(r, w)[|Pick(r[0], w)|..];
      }
      SortUnique(s[1..], r[1..]);
      assert s == [s[0]] + s[1..] && r == [r[0]] + r[1..];
    }
  }

  // ---------------------------------------------------------------- leaders

  /** The first rule in question. */
  function First(s: seq<Rule>, p: Rule -> bool): Option<Rule> {
    if s == [] then None else if p(s[0]) then Some(s[0]) else First(s[1..], p)
  }

  /** Of the rules in question, the leftmost of those with the largest absolute weight. */
  function Leader(s: seq<Rule>, p: Rule -> bool): Option<Rule> {
    if s == [] then None
    else
      var l := Leader(s[1..], p);
      if p(s[0]) && (l.None? || Abs(s[0].weight) >= Abs(l.value.weight)) then Some(s[0]) else l
  }

  ghost predicate Leads(s: seq<Rule>, p: Rule -> bool, j: nat) {
    && j < |s| && p(s[j])
    && (forall i :: 0 <= i < |s| && p(s[i]) ==> Abs(s[i].weight) <= Abs(s[j].weight))
    && (forall i :: 0 <= i < j && p(s[i]) ==> Abs(s[i].weight) < Abs(s[j].weight))
  }

  lemma {:induction false} NoLeader(s: seq<Rule>, p: Rule -> bool)
    ensures Leader(s, p).None? <==> forall i :: 0 <= i < |s| ==> !p(s[i])
  {
    if s == [] {
    } else {
      NoLeader(s[1..], p);
      assert forall i :: 1 <= i < |s| ==> s[i] == s[1..][i - 1];
    }
  }

  lemma {:induction false} LeaderLeads(s: seq<Rule>, p: Rule -> bool) returns (j: nat)
    requires Leader(s, p).Some?
    ensures Leads(s, p, j) && s[j] == Leader(s, p).value
  {
    var l := Leader(s[1..], p);
    assert forall i :: 1 <= i < |s| ==> s[i] == s[1..][i - 1];
    if l.None? {
      NoLeader(s[1..], p);
      j := 0;
    } else {
      var k := LeaderLeads(s[1..], p);
      j := if p(s[0]) && Abs(s[0].weight) >= Abs(l.value.weight) then 0 else k + 1;
    }
  }

  lemma {:induction false} InsertFirst(r: Rule, s: seq<Rule>, p: Rule -> bool)
    requires Sorted(s)
    ensures var f := First(s, p);
            First(Insert(r, s), p) == (if p(r) && (f.None? || Abs(r.weight) >= Abs(f.value.weight)) then Some(r) else f)
  {
    FirstIn(s, p);
    if s == [] || Abs(r.weight) >= Abs(s[0].weight) {
      assert ([r] + s)[1..] == s;
    } else {
      InsertFirst(r, s[1..], p);
      assert ([s[0]] + Insert(r, s[1..]))[1..] == Insert(r, s[1..]);
    }
  }

  lemma {:induction false} FirstIn(s: seq<Rule>, p: Rule -> bool)
    ensures First(s, p).Some? ==> First(s, p).value in s && p(First(s, p).value)
    ensures First(s, p).None? ==> forall i :: 0 <= i < |s| ==> !p(s[i])
  {
    if s == [] || p(s[0]) {
    } else {
      FirstIn(s[1..], p);
    }
  }

  /** After the sort the first rule in question is the leader of the unsorted list, whatever the question. */
  lemma {:induction false} SortedLeader(s: seq<Rule>, p: Rule -> bool)
    ensures First(StableSort(s), p) == Leader(s, p)
  {
    if s == [] {
    } else {
      SortedLeader(s[1..], p);
      SortSorts(s[1..]);
      InsertFirst(s[0], StableSort(s[1..]), p);
    }
  }

  // ---------------------------------------------------------------- sums of evidence

  function Max(a: int, b: int): int {
    if a > b then a else b
  }

  function Min(a: int, b: int): int {
    if a < b then a else b
  }

  function SumOf(e: seq<Evidence>): int {
    if e == [] then 0 else SumOf(e[..|e| - 1]) + e[|e| - 1].weight
  }

  function PositiveOf(e: seq<Evidence>): int {
    if e == [] then 0 else PositiveOf(e[..|e| - 1]) + Max(e[|e| - 1].weight, 0)
  }

  function NegativeOf(e: seq<Evidence>): int {
    if e == [] then 0 else NegativeOf(e[..|e| - 1]) + Min(e[|e| - 1].weight, 0)
  }

  /** What the scoring has counted so far. */
  datatype Tally = Tally(score: int, positive: int, negative: int, evidence: seq<Evidence>)

  /** The counts are those of the evidence. */
  predicate Balanced(t: Tally) {
    && t.score == SumOf(t.evidence)
    && t.positive == PositiveOf(t.evidence)
    && t.negative == NegativeOf(t.evidence)
  }

  function Added(t: Tally, kind: string, weight: int): Tally {
    Tally(t.score + weight, t.positive + Max(weight, 0), t.negative + Min(weight, 0), t.evidence + [Evidence(kind, weight)])
  }

  lemma AddedBalanced(t: Tally, kind: string, weight: int)
    requires Balanced(t)
    ensures Balanced(Added(t, kind, weight))
  {
    assert Added(t, kind, weight).evidence[..|t.evidence|] == t.evidence;
  }

  lemma {:induction false} BalanceSplits(e: seq<Evidence>)
    ensures SumOf(e) == PositiveOf(e) + NegativeOf(e) && PositiveOf(e) >= 0 >= NegativeOf(e)
  {
    if e == [] {
    } else {
      BalanceSplits(e[..|e| - 1]);
    }
  }

  lemma {:induction false} SumAppend(a: seq<Evidence>, b: seq<Evidence>)
    ensures SumOf(a + b) == SumOf(a) + SumOf(b)
  {
    if b == [] {
      assert a + b == a;
    } else {
      SumAppend(a, b[..|b| - 1]);
      assert (a + b)[..|a + b| - 1] == a + b[..|b| - 1];
    }
  }

  // ---------------------------------------------------------------- the rules' part

  function InGroup(g: string): Rule -> bool {
    r => GroupOf(r) == g
  }

  function GroupsOf(s: seq<Rule>): set<string> {
    set i | 0 <= i < |s| :: GroupOf(s[i])
  }

  /** No earlier rule has the rule's group. */
  predicate Fresh(m: seq<Rule>, i: nat)
    requires i < |m|
  {
    GroupOf(m[i]) !in GroupsOf(m[..i])
  }

  /** Of a group only the first rule's weight counts; the others corroborate. */
  function RuleEvidence(m: seq<Rule>, i: nat): Evidence
    requires i < |m|
  {
    if Fresh(m, i) then Evidence("rule", m[i].weight) else Evidence("corroboration", 0)
  }

  function RuleEvidences(m: seq<Rule>, n: nat): seq<Evidence>
    requires n <= |m|
  {
    if n == 0 then [] else RuleEvidences(m, n - 1) + [RuleEvidence(m, n - 1)]
  }

  /** The rules are of one signal group: that of the same name, where a rule without one is in a group of its own ID. */
  predicate SameSignal(a: Rule, b: Rule) {
    (if a.group != "" then a.group else a.id) == (if b.group != "" then b.group else b.id)
  }

  /** In the list of evidence a rule counts with its weight unless an earlier one is of the same signal group, and then
      with nothing. */
  lemma {:induction false} EvidenceOf(m: seq<Rule>, n: nat, i: nat)
    requires i < n <= |m|
    ensures |RuleEvidences(m, n)| == n
    ensures RuleEvidences(m, n)[i] == if exists k :: 0 <= k < i && SameSignal(m[k], m[i]) then Evidence("corroboration", 0)
                                      else Evidence("rule", m[i].weight)
  {
    if i < n - 1 {
      EvidenceOf(m, n - 1, i);
    } else {
      EvidenceCount(m, i);
      assert forall k :: 0 <= k < i ==> m[..i][k] == m[k];
      if k :| 0 <= k < i && SameSignal(m[k], m[i]) {
        assert GroupOf(m[..i][k]) == GroupOf(m[i]);
      }
    }
  }

  lemma {:induction false} EvidenceCount(m: seq<Rule>, n: nat)
    requires n <= |m|
    ensures |RuleEvidences(m, n)| == n
  {
    if n == 0 {
    } else {
      EvidenceCount(m, n - 1);
    }
  }

  method ScoreRules(m: seq<Rule>) returns (t: Tally)
    ensures t.evidence == RuleEvidences(m, |m|)
    ensures Balanced(t)
  {
    var score, positive, negative := 0, 0, 0;
    var evidence: seq<Evidence> := [];
    var seenGroups: set<string> := {};
    for i := 0 to |m|
      invariant seenGroups == GroupsOf(m[..i])
      invariant Balanced(Tally(score, positive, negative, evidence)) && evidence == RuleEvidences(m, i)
    {
      var rule := m[i];
      var group := if rule.group == "" then rule.id else rule.group;
      GroupsGrow(m, i);
      ghost var before := Tally(score, positive, negative, evidence);
      if group in seenGroups {
        evidence := evidence + [Evidence("corroboration", 0)];
        AddedBalanced(before, "corroboration", 0);
        continue;
      }
      seenGroups := seenGroups + {group};
      score := score + rule.weight;
      if rule.weight > 0 {
        positive := positive + rule.weight;
      } else if rule.weight < 0 {
        negative := negative + rule.weight;
      }
      evidence := evidence + [Evidence("rule", rule.weight)];
      AddedBalanced(before, "rule", rule.weight);
    }
    t := Tally(score, positive, negative, evidence);
  }

  function LeaderWeight(s: seq<Rule>, g: string): int {
    var l := Leader(s, InGroup(g)); if l.Some? then l.value.weight else 0
  }

  /** The weights of the groups' leaders, added up. */
  ghost function GroupTotal(s: seq<Rule>, gs: set<string>): int {
    if gs == {} then 0 else var g :| g in gs; LeaderWeight(s, g) + GroupTotal(s, gs - {g})
  }

  lemma {:induction false} GroupTotalAny(s: seq<Rule>, gs: set<string>, g: string)
    requires g in gs
    ensures GroupTotal(s, gs) == LeaderWeight(s, g) + GroupTotal(s, gs - {g})
    decreases |gs|
  {
    var h :| h in gs && GroupTotal(s, gs) == LeaderWeight(s, h) + GroupTotal(s, gs - {h});
    if h == g {
    } else {
      GroupTotalAny(s, gs - {h}, g);
      GroupTotalAny(s, gs - {g}, h);
      assert gs - {h} - {g} == gs - {g} - {h};
    }
  }

  lemma {:induction false} FirstAt(m: seq<Rule>, i: nat, p: Rule -> bool)
    requires i < |m| && p(m[i]) && forall k :: 0 <= k < i ==> !p(m[k])
    ensures First(m, p) == Some(m[i])
  {
    if i == 0 {
    } else {
      assert forall k :: 0 <= k < i - 1 ==> m[1..][k] == m[k + 1];
      FirstAt(m[1..], i - 1, p);
    }
  }

  lemma FreshIsFirst(m: seq<Rule>, i: nat)
    requires i < |m| && Fresh(m, i)
    ensures First(m, InGroup(GroupOf(m[i]))) == Some(m[i])
  {
    forall k | 0 <= k < i ensures GroupOf(m[k]) != GroupOf(m[i]) {
      assert m[..i][k] == m[k];
      assert GroupOf(m[..i][k]) in GroupsOf(m[..i]);
    }
    FirstAt(m, i, InGroup(GroupOf(m[i])));
  }

  lemma GroupsGrow(m: seq<Rule>, i: nat)
    requires i < |m|
    ensures GroupsOf(m[..i + 1]) == GroupsOf(m[..i]) + {GroupOf(m[i])}
  {
    assert m[..i + 1] == m[..i] + [m[i]];
    assert m[..i + 1][i] == m[i];
    forall g | g in GroupsOf(m[..i]) ensures g in GroupsOf(m[..i + 1]) {
      var k :| 0 <= k < i && GroupOf(m[..i][k]) == g;
      assert m[..i + 1][k] == m[..i][k];
    }
  }

  lemma RuleSumStep(m: seq<Rule>, i: nat)
    requires i < |m|
    ensures SumOf(RuleEvidences(m, i + 1)) == SumOf(RuleEvidences(m, i)) + RuleEvidence(m, i).weight
  {
    var e := RuleEvidences(m, i + 1);
    assert e[..|e| - 1] == RuleEvidences(m, i);
  }

  /** The groups' first rules in `m` are their leaders in `s`. */
  ghost predicate LeadersFirst(s: seq<Rule>, m: seq<Rule>) {
    forall g {:trigger InGroup(g)} :: First(m, InGroup(g)) == Leader(s, InGroup(g))
  }

  lemma GroupTotalAdd(s: seq<Rule>, gs: set<string>, g: string)
    ensures GroupTotal(s, gs + {g}) == GroupTotal(s, gs) + if g in gs then 0 else LeaderWeight(s, g)
  {
    if g in gs {
      assert gs + {g} == gs;
    } else {
      GroupTotalAny(s, gs + {g}, g);
      assert gs + {g} - {g} == gs;
    }
  }

  /** What the rule counts for is what its group adds. */
  lemma GroupStep(s: seq<Rule>, m: seq<Rule>, i: nat)
    requires LeadersFirst(s, m) && i < |m|
    ensures GroupTotal(s, GroupsOf(m[..i + 1])) == GroupTotal(s, GroupsOf(m[..i])) + RuleEvidence(m, i).weight
  {
    GroupsGrow(m, i);
    GroupTotalAdd(s, GroupsOf(m[..i]), GroupOf(m[i]));
    if Fresh(m, i) {
      FreshIsFirst(m, i);
    }
  }

  lemma NoGroups(s: seq<Rule>, m: seq<Rule>)
    ensures SumOf(RuleEvidences(m, 0)) == 0 == GroupTotal(s, GroupsOf(m[..0]))
  {
    assert GroupsOf(m[..0]) == {};
  }

  /** With the rule at i the groups' total grows by what the rule counts for. */
  ghost predicate Adds(s: seq<Rule>, m: seq<Rule>, i: nat)
    requires i < |m|
  {
    GroupTotal(s, GroupsOf(m[..i + 1])) == GroupTotal(s, GroupsOf(m[..i])) + RuleEvidence(m, i).weight
  }

  lemma {:induction false} PrefixScore(s: seq<Rule>, m: seq<Rule>, n: nat)
    requires n <= |m| && forall i {:trigger Adds(s, m, i)} :: 0 <= i < n ==> Adds(s, m, i)
    ensures SumOf(RuleEvidences(m, n)) == GroupTotal(s, GroupsOf(m[..n]))
  {
    if n == 0 {
      NoGroups(s, m);
    } else {
      PrefixScore(s, m, n - 1);
      RuleSumStep(m, n - 1);
      assert Adds(s, m, n - 1);
    }
  }

  lemma GroupsWithin(m: seq<Rule>, s: seq<Rule>)
    requires multiset(m) == multiset(s)
    ensures GroupsOf(m) <= GroupsOf(s)
  {
    forall i | 0 <= i < |m| ensures GroupOf(m[i]) in GroupsOf(s) {
      assert m[i] in multiset(s);
      assert m[i] in s;
    }
  }

  lemma SortGroups(s: seq<Rule>)
    ensures GroupsOf(StableSort(s)) == GroupsOf(s) && |StableSort(s)| == |s|
  {
    SortSorts(s);
    GroupsWithin(StableSort(s), s);
    GroupsWithin(s, StableSort(s));
    assert |multiset(StableSort(s))| == |multiset(s)|;
  }

  /** After the sort each group counts once, with its leader in the unsorted list. */
  lemma RulesScoreLeaders(s: seq<Rule>)
    ensures |StableSort(s)| == |s|
    ensures SumOf(RuleEvidences(StableSort(s), |s|)) == GroupTotal(s, GroupsOf(s))
  {
    SortGroups(s);
    forall g ensures First(StableSort(s), InGroup(g)) == Leader(s, InGroup(g)) {
      SortedLeader(s, InGroup(g));
    }
    forall i | 0 <= i < |s| ensures Adds(s, StableSort(s), i) {
      GroupStep(s, StableSort(s), i);
    }
    PrefixScore(s, StableSort(s), |s|);
    assert StableSort(s)[..|s|] == StableSort(s);
  }

  // ---------------------------------------------------------------- the context's part

  datatype Category = Unknown | CodeFailure | ToolchainFailure | RunnerImageDrift | OtherCategory(name: string)

  datatype Confidence = Insufficient | Mixed | Moderate | Strong | LikelyCode

  datatype Attribution = UnknownCause | MixedCause | ToolchainCause | CodeCause | ExternalCause

  datatype Context = Context(
    failureSeen: bool, previousSuccess: bool, changeInfo: bool, workflowChanged: bool, dependencyChanged: bool,
    hasRepository: bool, providerIncident: bool, repositories: int, organizations: int, occurrences: int,
    environmentChanges: nat)

  function When(holds: bool, kind: string, weight: int): seq<Evidence> {
    if holds then [Evidence(kind, weight)] else []
  }

  function RepositoryBonus(n: int): int {
    if n >= 50 then 35 else if n >= 10 then 25 else 15
  }

  /** The evidence with that of the change and its provider, in order. */
  function WithChange(rules: seq<Evidence>, c: Context): seq<Evidence> {
    rules
    + When(c.failureSeen, "failure", 0)
    + When(c.previousSuccess, "history", 15)
    + When(c.changeInfo && !c.workflowChanged && c.hasRepository, "change", 8)
    + When(c.changeInfo && !c.dependencyChanged && c.hasRepository, "change", 8)
    + When(c.changeInfo && c.workflowChanged, "change", -18)
    + When(c.changeInfo && c.dependencyChanged, "change", -20)
  }

  /** The evidence with that of the surroundings, in order. */
  function WithSpread(before: seq<Evidence>, c: Context): seq<Evidence> {
    before
    + When(c.providerIncident, "provider", 40)
    + When(c.repositories >= 3, "correlation", RepositoryBonus(c.repositories))
    + When(c.organizations >= 2, "correlation", if c.organizations >= 5 then 20 else 10)
    + When(c.occurrences >= 5, "burst", if c.occurrences >= 25 then 18 else 10)
    + When(c.environmentChanges > 0, "environment", 22)
  }

  function ChangeBonus(c: Context): int {
    (if c.previousSuccess then 15 else 0)
    + (if !c.changeInfo then 0 else if c.workflowChanged then -18 else if c.hasRepository then 8 else 0)
    + (if !c.changeInfo then 0 else if c.dependencyChanged then -20 else if c.hasRepository then 8 else 0)
  }

  function SpreadBonus(c: Context): int {
    (if c.providerIncident then 40 else 0)
    + (if c.repositories >= 3 then RepositoryBonus(c.repositories) else 0)
    + (if c.organizations >= 5 then 20 else if c.organizations >= 2 then 10 else 0)
    + (if c.occurrences >= 25 then 18 else if c.occurrences >= 5 then 10 else 0)
    + (if c.environmentChanges > 0 then 22 else 0)
  }

  function Step(passed: bool, points: int): int {
    if passed then points else 0
  }

  /** The surroundings only ever add, in steps at their thresholds. */
  lemma EachSign(c: Context)
    ensures SpreadBonus(c)
            == Step(c.providerIncident, 40) + Step(c.environmentChanges > 0, 22)
               + Step(c.repositories > 2, 15) + Step(c.repositories > 9, 10) + Step(c.repositories > 49, 10)
               + Step(c.organizations > 1, 10) + Step(c.organizations > 4, 10)
               + Step(c.occurrences > 4, 10) + Step(c.occurrences > 24, 8)
    ensures SumOf(WithSpread([], c)) == SpreadBonus(c)
  {
    var correlation := RepositoryBonus(c.repositories);
    assert Step(c.repositories >= 3, correlation)
           == Step(c.repositories > 2, 15) + Step(c.repositories > 9, 10) + Step(c.repositories > 49, 10);
    SpreadSum(c);
  }

  lemma SpreadSum(c: Context)
    ensures SumOf(WithSpread([], c)) == SpreadBonus(c)
  {
    var spread, members, burst := RepositoryBonus(c.repositories), if c.organizations >= 5 then 20 else 10,
                                  if c.occurrences >= 25 then 18 else 10;
    assert SpreadBonus(c) == Step(c.providerIncident, 40) + Step(c.repositories >= 3, spread)
                             + Step(c.organizations >= 2, members) + Step(c.occurrences >= 5, burst)
                             + Step(c.environmentChanges > 0, 22);
    SpreadAdded(c, spread, members, burst);
  }

  lemma SpreadAdded(c: Context, spread: int, members: int, burst: int)
    requires spread == RepositoryBonus(c.repositories) && members == (if c.organizations >= 5 then 20 else 10)
    requires burst == if c.occurrences >= 25 then 18 else 10
    ensures SumOf(WithSpread([], c))
            == Step(c.providerIncident, 40) + Step(c.repositories >= 3, spread) + Step(c.organizations >= 2, members)
               + Step(c.occurrences >= 5, burst) + Step(c.environmentChanges > 0, 22)
  {
    var e := WhenSum([], c.providerIncident, "provider", 40);
    e := WhenSum(e, c.repositories >= 3, "correlation", spread);
    e := WhenSum(e, c.organizations >= 2, "correlation", members);
    e := WhenSum(e, c.occurrences >= 5, "burst", burst);
    e := WhenSum(e, c.environmentChanges > 0, "environment", 22);
  }

  /** Without information on the change nothing counts but an earlier success; what changed takes more than it would have
      given unchanged. */
  lemma EachChange(c: Context)
    ensures ChangeBonus(c.(changeInfo := false)) == Step(c.previousSuccess, 15)
    ensures c.changeInfo && !c.workflowChanged && !c.dependencyChanged ==>
              ChangeBonus(c) == Step(c.previousSuccess, 15) + Step(c.hasRepository, 16)
    ensures c.changeInfo && !c.workflowChanged ==>
              ChangeBonus(c.(workflowChanged := true)) == ChangeBonus(c) - 18 - Step(c.hasRepository, 8)
    ensures c.changeInfo && !c.dependencyChanged ==>
              ChangeBonus(c.(dependencyChanged := true)) == ChangeBonus(c) - 20 - Step(c.hasRepository, 8)
    ensures SumOf(WithChange([], c)) == ChangeBonus(c)
  {
    ChangeSum(c);
  }

  lemma ChangeSum(c: Context)
    ensures SumOf(WithChange([], c)) == ChangeBonus(c)
  {
    var e := WhenSum([], c.failureSeen, "failure", 0);
    e := WhenSum(e, c.previousSuccess, "history", 15);
    e := WhenSum(e, c.changeInfo && !c.workflowChanged && c.hasRepository, "change", 8);
    e := WhenSum(e, c.changeInfo && !c.dependencyChanged && c.hasRepository, "change", 8);
    e := WhenSum(e, c.changeInfo && c.workflowChanged, "change", -18);
    e := WhenSum(e, c.changeInfo && c.dependencyChanged, "change", -20);
    assert e == WithChange([], c);
  }

  lemma WhenSum(before: seq<Evidence>, holds: bool, kind: string, weight: int) returns (after: seq<Evidence>)
    ensures after == before + When(holds, kind, weight) && SumOf(after) == SumOf(before) + Step(holds, weight)
  {
    after := before + When(holds, kind, weight);
    SumAppend(before, When(holds, kind, weight));
  }

  method ScoreChange(rules: Tally, c: Context) returns (t: Tally)
    requires Balanced(rules)
    ensures Balanced(t) && t.evidence == WithChange(rules.evidence, c) && t.score == rules.score + ChangeBonus(c)
  {
    t := AddWhen(rules, c.failureSeen, "failure", 0);
    t := AddWhen(t, c.previousSuccess, "history", 15);
    t := AddWhen(t, c.changeInfo && !c.workflowChanged && c.hasRepository, "change", 8);
    t := AddWhen(t, c.changeInfo && !c.dependencyChanged && c.hasRepository, "change", 8);
    t := AddWhen(t, c.changeInfo && c.workflowChanged, "change", -18);
    t := AddWhen(t, c.changeInfo && c.dependencyChanged, "change", -20);
  }

  method ScoreSpread(before: Tally, c: Context) returns (t: Tally)
    requires Balanced(before)
    ensures Balanced(t) && t.evidence == WithSpread(before.evidence, c) && t.score == before.score + SpreadBonus(c)
  {
    t := AddWhen(before, c.providerIncident, "provider", 40);
    var bonus := 15;
    if c.repositories >= 10 {
      bonus := 25;
    }
    if c.repositories >= 50 {
      bonus := 35;
    }
    t := AddWhen(t, c.repositories >= 3, "correlation", bonus);
    t := AddWhen(t, c.organizations >= 2, "correlation", if c.organizations >= 5 then 20 else 10);
    t := AddWhen(t, c.occurrences >= 5, "burst", if c.occurrences >= 25 then 18 else 10);
    t := AddWhen(t, c.environmentChanges > 0, "environment", 22);
  }

  method AddWhen(before: Tally, holds: bool, kind: string, weight: int) returns (t: Tally)
    requires Balanced(before)
    ensures Balanced(t) && t.evidence == before.evidence + When(holds, kind, weight)
    ensures t.score == before.score + if holds then weight else 0
  {
    t := before;
    if holds {
      t := t.(score := t.score + weight, evidence := t.evidence + [Evidence(kind, weight)]);
      if weight > 0 {
        t := t.(positive := t.positive + weight);
      } else {
        t := t.(negative := t.negative + weight);
      }
      AddedBalanced(before, kind, weight);
    } else {
      assert before.evidence + When(holds, kind, weight) == before.evidence;
    }
  }

  // ---------------------------------------------------------------- the outcome

  function ConfidenceFor(score: int, category: Category): Confidence {
    if category == CodeFailure && score <= 0 then LikelyCode
    else if category == ToolchainFailure && score >= 30 then Moderate
    else if score >= 75 then Strong
    else if score >= 45 then Moderate
    else if score >= 20 then Mixed
    else if score < 0 then LikelyCode
    else Insufficient
  }

  function AttributionFor(confidence: Confidence, category: Category, competing: bool): Attribution {
    if competing || confidence == Mixed then MixedCause
    else if category == ToolchainFailure then ToolchainCause
    else if confidence == LikelyCode || category == CodeFailure then CodeCause
    else if confidence == Strong || confidence == Moderate then ExternalCause
    else UnknownCause
  }

  function Clamped(low: int, high: int, v: int): int {
    Max(low, Min(high, v))
  }

  datatype Outcome = Outcome(
    primary: Option<Rule>, evidence: seq<Evidence>, rawScore: int, score: int, positive: int, negative: int,
    external: int, code: int, strength: int, competing: bool, confidence: Confidence, attribution: Attribution)

  /** What the confidence says about the raw score and the category, unless signals compete. */
  predicate ConfidenceIs(confidence: Confidence, raw: int, category: Category) {
    && (confidence == LikelyCode <==> raw < 0 || (raw == 0 && category == CodeFailure))
    && (confidence == Strong <==> raw >= 75 && category != ToolchainFailure)
    && (confidence == Moderate <==> 45 <= raw < 75 || (raw >= 30 && category == ToolchainFailure))
    && (confidence == Mixed <==> 20 <= raw < 45 && !(raw >= 30 && category == ToolchainFailure))
    && (confidence == Insufficient <==> 0 <= raw < 20 && !(raw == 0 && category == CodeFailure))
  }

  /** The cause that is named: none for competing signals and for scores in the middle; else that of the category, where it
      is one of the code or the toolchain; else an external one from 45 on, and the code below 0. */
  predicate AttributionIs(attribution: Attribution, raw: int, category: Category, competing: bool) {
    var middle := 20 <= raw < (if category == ToolchainFailure then 30 else 45);
    && (attribution == MixedCause <==> competing || middle)
    && (attribution == ToolchainCause <==> !competing && !middle && category == ToolchainFailure)
    && (attribution == CodeCause <==> !competing && !middle && category != ToolchainFailure && (category == CodeFailure || raw < 0))
    && (attribution == ExternalCause <==> !competing && category != ToolchainFailure && category != CodeFailure && raw >= 45)
    && (attribution == UnknownCause <==> !competing && category != ToolchainFailure && category != CodeFailure && 0 <= raw < 20)
  }

  /** The scores of a balanced tally. */
  method Conclude(primary: Option<Rule>, t: Tally, category: Category) returns (o: Outcome)
    requires Balanced(t)
    ensures o.primary == primary && o.evidence == t.evidence && o.rawScore == t.score
    ensures o.rawScore == SumOf(o.evidence) == o.positive + o.negative
    ensures o.positive == PositiveOf(o.evidence) >= 0 >= o.negative == NegativeOf(o.evidence)
    ensures -100 <= o.score <= 100 && (-100 <= o.rawScore <= 100 ==> o.score == o.rawScore)
    ensures (o.score > 0 <==> o.rawScore > 0) && (o.score < 0 <==> o.rawScore < 0)
    ensures 0 <= o.external <= o.strength <= 100 && 0 <= o.code <= o.strength
    ensures o.strength == o.external || o.strength == o.code
    ensures o.competing <==> o.external >= 25 && o.code >= 25
    ensures o.score == (if o.rawScore > 100 then 100 else if o.rawScore < -100 then -100 else o.rawScore)
    ensures o.external == (if o.positive > 100 then 100 else o.positive)
    ensures o.code == (if o.negative < -100 then 100 else -o.negative)
    ensures if o.competing then o.confidence == Mixed else ConfidenceIs(o.confidence, o.rawScore, category)
    ensures AttributionIs(o.attribution, o.rawScore, category, o.competing)
    ensures o.competing ==> o.attribution == MixedCause
    ensures o.attribution == ExternalCause ==> o.external >= 45 && o.score >= 45 && o.code < 25
    ensures o.attribution == CodeCause && category != CodeFailure ==> o.code > o.external && o.external < 25
    ensures o.attribution == ToolchainCause ==> category == ToolchainFailure
  {
    BalanceSplits(t.evidence);
    var score := t.score;
    var external, code := Clamped(0, 100, t.positive), Clamped(0, 100, 0 - t.negative);
    var strength := external;
    if code > strength {
      strength := code;
    }
    var competing := t.positive >= 25 && t.negative <= -25;
    if score > 100 {
      score := 100;
    }
    if score < -100 {
      score := -100;
    }
    var confidence := ConfidenceFor(score, category);
    if competing {
      confidence := Mixed;
    }
    o := Outcome(primary, t.evidence, t.score, score, t.positive, t.negative, external, code, strength, competing,
                 confidence, AttributionFor(confidence, category, competing));
  }

  function AnyRule(): Rule -> bool {
    _ => true
  }

  /** The scoring part of an analysis. The raw score is the weight of every group's leader and the context's
      bonus: it depends in no other way on the rules that matched or on their order. `categoryOf` is the category
      that the rule catalog gives a rule. */
  method Score(matched: seq<Rule>, c: Context, categoryOf: Rule -> Category) returns (o: Outcome)
    ensures o.primary == Leader(matched, AnyRule())
    ensures var category := if o.primary.Some? then categoryOf(o.primary.value) else Unknown;
            var shown := if category == Unknown && c.environmentChanges > 0 then RunnerImageDrift else category;
            && (o.competing <==> o.positive >= 25 && o.negative <= -25)
            && (if o.competing then o.confidence == Mixed else ConfidenceIs(o.confidence, o.rawScore, shown))
            && AttributionIs(o.attribution, o.rawScore, shown, o.competing)
    ensures |StableSort(matched)| == |matched|
    ensures o.evidence == WithSpread(WithChange(RuleEvidences(StableSort(matched), |matched|), c), c)
    ensures o.rawScore == GroupTotal(matched, GroupsOf(matched)) + ChangeBonus(c) + SpreadBonus(c)
    ensures o.rawScore == SumOf(o.evidence) == o.positive + o.negative
    ensures o.positive == PositiveOf(o.evidence) >= 0 >= o.negative == NegativeOf(o.evidence)
  {
    var sorted := StableSort(matched);
    SortedLeader(matched, AnyRule());
    var primary := if sorted == [] then None else Some(sorted[0]);
    var category := if sorted == [] then Unknown else categoryOf(sorted[0]);
    var t := ScoreRules(sorted);
    RulesScoreLeaders(matched);
    t := ScoreChange(t, c);
    t := ScoreSpread(t, c);
    if c.environmentChanges > 0 && category == Unknown {
      category := RunnerImageDrift;
    }
    o := Conclude(primary, t, category);
  }
}
