/** Rules sorted by dependency, and the single evaluation pass over the sorted rules. */
module AggregationRules {
  import opened Collections
  import opened Aggregation
  import opened AggregationOrder

  function Targets(rules: seq<Rule>): set<MeterId> {
    set r | r in rules :: r.target
  }

  ghost predicate DistinctTargets(rules: seq<Rule>) {
    forall i, j :: 0 <= i < j < |rules| ==> rules[i].target != rules[j].target
  }

  function RuleFor(rules: seq<Rule>, t: MeterId): (r: Rule)
    requires t in Targets(rules)
    ensures r in rules && r.target == t
  {
    if rules[0].target == t then rules[0] else RuleFor(rules[1..], t)
  }

  lemma {:induction false} RuleForUnique(rules: seq<Rule>, r: Rule)
    requires DistinctTargets(rules) && r in rules
    ensures r.target in Targets(rules) && RuleFor(rules, r.target) == r
  {
    if rules[0] != r {
      assert r in rules[1..];
      var i :| 0 <= i < |rules| && rules[i] == r;
      RuleForUnique(rules[1..], r);
    }
  }

  /** Target t depends on the targets among its rule's sources. */
  function GraphOf(rules: seq<Rule>): (g: Graph)
    ensures g.Keys == Targets(rules) && Closed(g)
  {
    map t | t in Targets(rules) :: set s | s in RuleFor(rules, t).sources && s in Targets(rules)
  }

  /** Some targets depend on each other in a circle. */
  ghost predicate Cyclic(rules: seq<Rule>) {
    HasCycle(GraphOf(rules))
  }

  /** The same rules, each once, each after the rules whose target is one of its sources. */
  ghost predicate Topological(rules: seq<Rule>, order: seq<Rule>) {
    && |order| == |rules|
    && DistinctTargets(order)
    && (forall r :: r in order <==> r in rules)
    && (forall i, j :: 0 <= i < |order| && 0 <= j < |order| && order[j].target in order[i].sources ==> j < i)
  }

  datatype Sorted = Sorted(order: seq<Rule>) | CycleFound

  function Lookup(rules: seq<Rule>, targets: seq<MeterId>): (order: seq<Rule>)
    requires forall t :: t in targets ==> t in Targets(rules)
    ensures |order| == |targets| && forall i :: 0 <= i < |order| ==> order[i] == RuleFor(rules, targets[i])
  {
    if targets == [] then [] else Lookup(rules, targets[..|targets| - 1]) + [RuleFor(rules, targets[|targets| - 1])]
  }

  lemma TargetCount(rules: seq<Rule>)
    requires DistinctTargets(rules)
    ensures |Targets(rules)| == |rules|
  {
    var ts := seq(|rules|, i requires 0 <= i < |rules| => rules[i].target);
    DistinctSize(ts);
    assert forall i :: 0 <= i < |rules| ==> ts[i] == rules[i].target;
    assert Elements(ts) == Targets(rules);
  }

  lemma SortedTopological(rules: seq<Rule>, ts: seq<MeterId>)
    requires DistinctTargets(rules) && Ordered(GraphOf(rules), ts) && Elements(ts) == Targets(rules)
    requires |ts| == |rules|
    ensures Topological(rules, Lookup(rules, ts))
  {
    var order, g := Lookup(rules, ts), GraphOf(rules);
    forall r ensures r in order <==> r in rules {
      if r in rules {
        RuleForUnique(rules, r);
        assert r.target in Elements(ts);
        var i :| 0 <= i < |ts| && ts[i] == r.target;
        assert order[i] == r;
      }
    }
    forall i, j | 0 <= i < |order| && 0 <= j < |order| && order[j].target in order[i].sources
      ensures j < i
    {
      assert ts[j] in Elements(ts);
      assert ts[j] in g[ts[i]];
      assert ts[j] in Elements(ts[..i]);
      var k :| 0 <= k < i && ts[k] == ts[j];
    }
  }

  /** The rules by target, and the dependencies between targets. */
  method BuildDependencies(rules: seq<Rule>) returns (byTarget: map<MeterId, Rule>, deps: Graph)
    requires DistinctTargets(rules)
    ensures byTarget.Keys == Targets(rules) && deps == GraphOf(rules)
    ensures forall t :: t in byTarget ==> byTarget[t] == RuleFor(rules, t)
  {
    byTarget := IndexRules(rules);
    hide RuleFor, GraphOf, Targets;
    var targets := byTarget.Keys;
    deps := map t | t in targets :: set s | s in byTarget[t].sources && s in targets;
    DependenciesAre(rules, byTarget, deps);
  }

  method IndexRules(rules: seq<Rule>) returns (byTarget: map<MeterId, Rule>)
    requires DistinctTargets(rules)
    ensures byTarget.Keys == Targets(rules)
    ensures forall t :: t in byTarget ==> byTarget[t] == RuleFor(rules, t)
  {
    byTarget := map[];
    var i := 0;
    assert rules[..0] == [] && Targets(rules[..0]) == {};
    hide Targets, DistinctTargets, RuleFor;
    while i < |rules|
      invariant i <= |rules| && byTarget.Keys == Targets(rules[..i])
      invariant forall k :: 0 <= k < i ==> rules[k].target in byTarget && byTarget[rules[k].target] == rules[k]
    {
      OneMoreIndexed(rules, i);
      byTarget := byTarget[rules[i].target := rules[i]];
      i := i + 1;
    }
    assert rules[..|rules|] == rules;
    ByTarget(rules, byTarget);
  }

  lemma DependenciesAre(rules: seq<Rule>, byTarget: map<MeterId, Rule>, deps: Graph)
    requires DistinctTargets(rules) && byTarget.Keys == Targets(rules)
    requires forall t :: t in byTarget ==> byTarget[t] == RuleFor(rules, t)
    requires deps.Keys == byTarget.Keys
    requires forall t :: t in deps ==> deps[t] == set s | s in byTarget[t].sources && s in byTarget.Keys
    ensures deps == GraphOf(rules)
  {
    hide RuleFor;
    SameMap(deps, GraphOf(rules));
  }

  lemma OneMoreIndexed(rules: seq<Rule>, i: nat)
    requires i < |rules| && DistinctTargets(rules)
    ensures Targets(rules[..i + 1]) == Targets(rules[..i]) + {rules[i].target}
    ensures forall k :: 0 <= k < i ==> rules[k].target != rules[i].target
  {
    assert rules[..i + 1] == rules[..i] + [rules[i]];
  }

  lemma ByTarget(rules: seq<Rule>, byTarget: map<MeterId, Rule>)
    requires DistinctTargets(rules) && byTarget.Keys == Targets(rules)
    requires forall k :: 0 <= k < |rules| ==> rules[k].target in byTarget && byTarget[rules[k].target] == rules[k]
    ensures forall t :: t in byTarget ==> byTarget[t] == RuleFor(rules, t)
  {
    forall t | t in byTarget ensures byTarget[t] == RuleFor(rules, t) {
      var r := RuleFor(rules, t);
      var k :| 0 <= k < |rules| && rules[k] == r;
    }
  }

  /** The rules of the given targets, in their order. */
  method Collect(rules: seq<Rule>, byTarget: map<MeterId, Rule>, ts: seq<MeterId>) returns (order: seq<Rule>)
    requires forall t :: t in ts ==> t in Targets(rules) && t in byTarget && byTarget[t] == RuleFor(rules, t)
    ensures order == Lookup(rules, ts)
  {
    order := [];
    var i := 0;
    while i < |ts|
      invariant i <= |ts| && order == Lookup(rules, ts[..i])
    {
      assert ts[..i + 1][..i] == ts[..i];
      order := order + [byTarget[ts[i]]];
      i := i + 1;
    }
    assert ts[..|ts|] == ts;
  }

  method BuildAggregationOrder(rules: seq<Rule>) returns (result: Sorted)
    requires DistinctTargets(rules)
    ensures result.CycleFound? <==> Cyclic(rules)
    ensures result.Sorted? ==> Topological(rules, result.order)
  {
    if rules == [] {
      NoRules();
      return Sorted([]);
    }
    var byTarget, deps := BuildDependencies(rules);
    var ts := KahnOrder(deps);
    CompletenessOf(rules, deps, ts);
    hide *;
    if |ts| != |byTarget.Keys| {
      return CycleFound;
    }
    var order := Collect(rules, byTarget, ts);
    result := Sorted(order);
  }

  lemma CompletenessOf(rules: seq<Rule>, deps: Graph, ts: seq<MeterId>)
    requires DistinctTargets(rules) && deps == GraphOf(rules) && Ordered(deps, ts) && Stuck(deps, ts)
    ensures forall t :: t in ts ==> t in Targets(rules)
    ensures |ts| != |Targets(rules)| <==> Cyclic(rules)
    ensures |ts| == |Targets(rules)| ==> Topological(rules, Lookup(rules, ts))
  {
    CompleteIffAcyclic(deps, ts);
    TargetCount(rules);
    assert forall t :: t in ts ==> t in Elements(ts);
    assert |deps| == |deps.Keys|;
    if |ts| == |Targets(rules)| {
      SortedTopological(rules, ts);
    }
  }

  lemma NoRules()
    ensures !Cyclic([]) && Topological([], [])
  {
    forall c ensures !IsCycle(GraphOf([]), c) {}
  }

  // ---- One pass of evaluation ----

  datatype Power = Power(p: real, q: real)

  function Plus(a: Power, b: Power): Power {
    Power(a.p + b.p, a.q + b.q)
  }

  function TotalOf(readings: map<MeterId, Power>, sources: seq<MeterId>): Power
    requires forall s :: s in sources ==> s in readings
  {
    if sources == [] then Power(0.0, 0.0)
    else Plus(TotalOf(readings, sources[..|sources| - 1]), readings[sources[|sources| - 1]])
  }

  predicate Wired(meters: set<MeterId>, rules: seq<Rule>) {
    forall r :: r in rules ==> r.target in meters && forall s :: s in r.sources ==> s in meters
  }

  /** The readings after the rules have overwritten their targets, one rule after the other. */
  function Evaluated(order: seq<Rule>, readings: map<MeterId, Power>): (r: map<MeterId, Power>)
    requires Wired(readings.Keys, order)
    ensures r.Keys == readings.Keys
  {
    if order == [] then readings
    else
      var last := order[|order| - 1];
      var before := Evaluated(order[..|order| - 1], readings);
      before[last.target := TotalOf(before, last.sources)]
  }

  /** Every target is the sum of its sources, and meters that are no target kept their reading. */
  ghost predicate Solves(rules: seq<Rule>, readings: map<MeterId, Power>, v: map<MeterId, Power>)
    requires Wired(readings.Keys, rules)
  {
    && v.Keys == readings.Keys
    && (forall r :: r in rules ==> v[r.target] == TotalOf(v, r.sources))
    && (forall m :: m in readings && m !in Targets(rules) ==> v[m] == readings[m])
  }

  lemma {:induction false} TotalFrame(v: map<MeterId, Power>, w: map<MeterId, Power>, sources: seq<MeterId>)
    requires forall s :: s in sources ==> s in v && s in w && v[s] == w[s]
    ensures TotalOf(v, sources) == TotalOf(w, sources)
  {
    if sources != [] { TotalFrame(v, w, sources[..|sources| - 1]); }
  }

  /** Rules in an order where every target is computed before it is used. */
  ghost predicate Forward(order: seq<Rule>) {
    && DistinctTargets(order)
    && (forall i, j :: 0 <= i < |order| && 0 <= j < |order| && order[j].target in order[i].sources ==> j < i)
  }

  lemma ForwardInit(order: seq<Rule>)
    requires Forward(order) && order != []
    ensures Forward(order[..|order| - 1])
    ensures var last := order[|order| - 1];
      && last.target !in Targets(order[..|order| - 1])
      && forall r :: r in order ==> last.target !in r.sources
  {
    var init, last := order[..|order| - 1], order[|order| - 1];
    forall r | r in order ensures last.target !in r.sources {
      var i :| 0 <= i < |order| && order[i] == r;
    }
    forall r | r in init ensures r.target != last.target {
      var i :| 0 <= i < |init| && init[i] == r;
      assert order[i].target != last.target;
    }
  }

  /** The last rule's target is nobody's source, so it does not disturb what the others solved. */
  lemma OneMoreSolved(order: seq<Rule>, readings: map<MeterId, Power>, before: map<MeterId, Power>)
    requires order != [] && Wired(readings.Keys, order)
    requires var init, last := order[..|order| - 1], order[|order| - 1];
      && Solves(init, readings, before) && last.target !in Targets(init)
      && forall r :: r in order ==> last.target !in r.sources
    ensures var last := order[|order| - 1];
      Solves(order, readings, before[last.target := TotalOf(before, last.sources)])
  {
    var init, last := order[..|order| - 1], order[|order| - 1];
    var after := before[last.target := TotalOf(before, last.sources)];
    assert order == init + [last];
    hide TotalOf;
    forall r | r in order ensures after[r.target] == TotalOf(after, r.sources) {
      TotalFrame(before, after, r.sources);
      assert r in init ==> r.target in Targets(init);
    }
  }

  /** One pass over forward rules makes all their equations hold at once. */
  lemma {:induction false} PassSolves(order: seq<Rule>, readings: map<MeterId, Power>)
    requires Forward(order) && Wired(readings.Keys, order)
    ensures Solves(order, readings, Evaluated(order, readings))
  {
    hide Forward, TotalOf, Targets;
    if order != [] {
      ForwardInit(order);
      PassSolves(order[..|order| - 1], readings);
      hide Solves;
      OneMoreSolved(order, readings, Evaluated(order[..|order| - 1], readings));
    }
  }

  ghost predicate AgreeOn(v: map<MeterId, Power>, w: map<MeterId, Power>, m: MeterId) {
    m in v && m in w && v[m] == w[m]
  }

  /** Two solutions agree on the first k targets. */
  lemma {:induction false} SolutionsAgree(order: seq<Rule>, readings: map<MeterId, Power>, v: map<MeterId, Power>,
                                          w: map<MeterId, Power>, k: nat)
    requires Forward(order) && Wired(readings.Keys, order) && k <= |order|
    requires Solves(order, readings, v) && Solves(order, readings, w)
    ensures forall i :: 0 <= i < k ==> AgreeOn(v, w, order[i].target)
  {
    if k > 0 {
      SolutionsAgree(order, readings, v, w, k - 1);
      var r := order[k - 1];
      assert r in order;
      forall s | s in r.sources
        ensures AgreeOn(v, w, s)
      {
        if s in Targets(order) {
          var x :| x in order && x.target == s;
          var j :| 0 <= j < |order| && order[j] == x;
          assert j < k - 1;
        }
      }
      TotalFrame(v, w, r.sources);
    }
  }

  /** No other readings satisfy the equations: whatever the order, the pass gives the recursive sums. */
  lemma SolutionUnique(order: seq<Rule>, readings: map<MeterId, Power>, v: map<MeterId, Power>,
                       w: map<MeterId, Power>)
    requires Forward(order) && Wired(readings.Keys, order)
    requires Solves(order, readings, v) && Solves(order, readings, w)
    ensures v == w
  {
    SolutionsAgree(order, readings, v, w, |order|);
    forall m | m in v
      ensures v[m] == w[m]
    {
      if m in Targets(order) {
        var x :| x in order && x.target == m;
        var j :| 0 <= j < |order| && order[j] == x;
        assert AgreeOn(v, w, order[j].target);
      }
    }
    SameMap(v, w);
  }

  /** Two orders of the same rules give the same readings. */
  lemma OrderIrrelevant(rules: seq<Rule>, order1: seq<Rule>, order2: seq<Rule>, readings: map<MeterId, Power>)
    requires Topological(rules, order1) && Topological(rules, order2) && Wired(readings.Keys, rules)
    ensures Evaluated(order1, readings) == Evaluated(order2, readings)
  {
    PassSolves(order1, readings);
    PassSolves(order2, readings);
    assert Targets(order1) == Targets(order2);
    assert Solves(order1, readings, Evaluated(order2, readings));
    SolutionUnique(order1, readings, Evaluated(order1, readings), Evaluated(order2, readings));
  }

  // ---- The recursive sums ----

  /** The power of a meter by the rules themselves: a target sums its sources, up to a depth of recursion. */
  function Recursive(rules: seq<Rule>, readings: map<MeterId, Power>, m: MeterId, depth: nat): Power
    requires Wired(readings.Keys, rules) && m in readings
    decreases depth, 0
  {
    if depth == 0 || m !in Targets(rules) then readings[m]
    else RecursiveTotal(rules, readings, RuleFor(rules, m).sources, depth - 1)
  }

  function RecursiveTotal(rules: seq<Rule>, readings: map<MeterId, Power>, sources: seq<MeterId>, depth: nat): Power
    requires Wired(readings.Keys, rules) && forall s :: s in sources ==> s in readings
    decreases depth, |sources|
  {
    if sources == [] then Power(0.0, 0.0)
    else Plus(RecursiveTotal(rules, readings, sources[..|sources| - 1], depth),
              Recursive(rules, readings, sources[|sources| - 1], depth))
  }

  lemma {:induction false} TotalIsRecursive(rules: seq<Rule>, readings: map<MeterId, Power>, v: map<MeterId, Power>,
                                            sources: seq<MeterId>, depth: nat)
    requires Wired(readings.Keys, rules)
    requires forall s :: s in sources ==> s in readings && s in v && v[s] == Recursive(rules, readings, s, depth)
    ensures TotalOf(v, sources) == RecursiveTotal(rules, readings, sources, depth)
  {
    if sources != [] { TotalIsRecursive(rules, readings, v, sources[..|sources| - 1], depth); }
  }

  lemma SourceBefore(rules: seq<Rule>, order: seq<Rule>, i: nat, s: MeterId) returns (j: nat)
    requires Topological(rules, order) && i < |order| && s in order[i].sources && s in Targets(rules)
    ensures j < i && order[j].target == s
  {
    var x :| x in rules && x.target == s;
    j :| 0 <= j < |order| && order[j] == x;
    assert order[j].target in order[i].sources;
  }

  lemma RuleAt(rules: seq<Rule>, order: seq<Rule>, i: nat)
    requires DistinctTargets(rules) && Topological(rules, order) && i < |order|
    ensures order[i] in rules && order[i].target in Targets(rules) && RuleFor(rules, order[i].target) == order[i]
  {
    assert order[i] in order;
    RuleForUnique(rules, order[i]);
  }

  /** The target at place i needs a depth of i + 1. */
  lemma {:induction false} SolutionIsRecursive(rules: seq<Rule>, order: seq<Rule>, readings: map<MeterId, Power>,
                                               v: map<MeterId, Power>, i: nat, depth: nat)
    requires DistinctTargets(rules) && Topological(rules, order) && Wired(readings.Keys, rules)
    requires Solves(rules, readings, v) && i < |order| && depth > i
    ensures order[i].target in readings && v[order[i].target] == Recursive(rules, readings, order[i].target, depth)
  {
    hide Topological, DistinctTargets, RuleFor, Targets, RecursiveTotal, TotalOf;
    var r := order[i];
    RuleAt(rules, order, i);
    forall s | s in r.sources
      ensures s in readings && s in v && v[s] == Recursive(rules, readings, s, depth - 1)
    {
      if s in Targets(rules) {
        var j := SourceBefore(rules, order, i, s);
        SolutionIsRecursive(rules, order, readings, v, j, depth - 1);
      }
    }
    TotalIsRecursive(rules, readings, v, r.sources, depth - 1);
  }

  /** One pass in topological order gives every meter its recursive sum; the number of rules is depth enough. */
  lemma PassIsRecursive(rules: seq<Rule>, order: seq<Rule>, readings: map<MeterId, Power>, m: MeterId, depth: nat)
    requires DistinctTargets(rules) && Topological(rules, order) && Wired(readings.Keys, rules)
    requires m in readings && depth >= |rules|
    ensures Evaluated(order, readings)[m] == Recursive(rules, readings, m, depth)
  {
    PassSolves(order, readings);
    assert Targets(order) == Targets(rules);
    if m in Targets(rules) {
      var x :| x in rules && x.target == m;
      var i :| 0 <= i < |order| && order[i] == x;
      SolutionIsRecursive(rules, order, readings, Evaluated(order, readings), i, depth);
    }
  }
}
