/** Meter aggregation rules: ordering them by dependency, and evaluating them in one pass. */
module Aggregation {

  datatype MeterId = MeterId(name: string)

  datatype Rule = Rule(sources: seq<MeterId>, target: MeterId)

  type Graph = map<MeterId, set<MeterId>>

  // ---- Dependency graphs and cycles ----

  ghost predicate Closed(deps: Graph) {
    forall t :: t in deps ==> deps[t] <= deps.Keys
  }

  /** c is walked forward along dependencies and back to its start. */
  ghost predicate IsCycle(deps: Graph, c: seq<MeterId>) {
    && c != []
    && (forall i :: 0 <= i < |c| ==> c[i] in deps)
    && (forall i :: 0 <= i < |c| - 1 ==> c[i + 1] in deps[c[i]])
    && c[0] in deps[c[|c| - 1]]
  }

  ghost predicate HasCycle(deps: Graph) {
    exists c :: IsCycle(deps, c)
  }

  function Elements<T>(s: seq<T>): set<T> {
    set x | x in s
  }

  ghost predicate Distinct<T>(s: seq<T>) {
    forall i, j :: 0 <= i < j < |s| ==> s[i] != s[j]
  }

  /** Every node follows all its dependencies. */
  ghost predicate Ordered(deps: Graph, order: seq<MeterId>) {
    && Distinct(order)
    && (forall i :: 0 <= i < |order| ==> order[i] in deps && deps[order[i]] <= Elements(order[..i]))
  }

  /** No node outside `order` has all its dependencies inside. */
  ghost predicate Stuck(deps: Graph, order: seq<MeterId>) {
    forall t :: t in deps && t !in order ==> !(deps[t] <= Elements(order))
  }

  lemma {:induction false} DistinctBound<T>(s: seq<T>, r: set<T>)
    requires Distinct(s) && Elements(s) <= r
    ensures |s| <= |r|
    ensures |s| == |r| ==> Elements(s) == r
  {
    if s != [] {
      var x, init := s[|s| - 1], s[..|s| - 1];
      assert forall y :: y in init ==> y in s && y != x;
      DistinctBound(init, r - {x});
      assert s == init + [x];
      assert Elements(s) == Elements(init) + {x};
    }
  }

  /** A walk along dependencies that stays inside r and repeats nothing. */
  ghost predicate IsPath(deps: Graph, r: set<MeterId>, path: seq<MeterId>) {
    && path != []
    && Distinct(path)
    && (forall i :: 0 <= i < |path| ==> path[i] in r)
    && (forall i :: 0 <= i < |path| - 1 ==> path[i] in deps && path[i + 1] in deps[path[i]])
  }

  /** Everything in r depends on something in r. */
  ghost predicate Entangled(deps: Graph, r: set<MeterId>) {
    r <= deps.Keys && forall t :: t in r ==> exists d :: d in deps[t] && d in r
  }

  lemma PathShort(deps: Graph, r: set<MeterId>, path: seq<MeterId>)
    requires IsPath(deps, r, path)
    ensures |path| <= |r|
  {
    DistinctBound(path, r);
  }

  /** From a path inside an entangled set, a cycle. */
  lemma {:induction false} FindCycle(deps: Graph, r: set<MeterId>, path: seq<MeterId>) returns (c: seq<MeterId>)
    requires Entangled(deps, r) && IsPath(deps, r, path)
    ensures IsCycle(deps, c)
    decreases |r| - |path|
  {
    var last := path[|path| - 1];
    var d :| d in deps[last] && d in r;
    if d in path {
      var i :| 0 <= i < |path| && path[i] == d;
      c := path[i..];
    } else {
      assert IsPath(deps, r, path + [d]);
      PathShort(deps, r, path + [d]);
      hide IsPath, Entangled, IsCycle;
      c := FindCycle(deps, r, path + [d]);
    }
  }

  lemma FromNode(deps: Graph, r: set<MeterId>, t: MeterId)
    requires Entangled(deps, r) && t in r
    ensures HasCycle(deps)
  {
    assert IsPath(deps, r, [t]);
    hide IsPath, Entangled, IsCycle;
    var c := FindCycle(deps, r, [t]);
  }

  lemma StuckMeansCycle(deps: Graph, order: seq<MeterId>)
    requires Closed(deps) && Stuck(deps, order) && Elements(order) <= deps.Keys && Elements(order) != deps.Keys
    ensures HasCycle(deps)
  {
    var r := deps.Keys - Elements(order);
    Remaining(deps, order, r);
    var t := Missing(Elements(order), deps.Keys);
    hide *;
    FromNode(deps, r, t);
  }

  lemma Remaining(deps: Graph, order: seq<MeterId>, r: set<MeterId>)
    requires Closed(deps) && Stuck(deps, order) && r == deps.Keys - Elements(order)
    ensures Entangled(deps, r)
  {
    forall t | t in r
      ensures exists d :: d in deps[t] && d in r
    {
      assert t !in order;
      Outside(deps[t], Elements(order));
      var d :| d in deps[t] && d !in Elements(order);
      assert d in r;
    }
  }

  lemma Outside<T>(a: set<T>, b: set<T>)
    requires !(a <= b)
    ensures exists x :: x in a && x !in b
  {}

  lemma Missing<T>(a: set<T>, b: set<T>) returns (x: T)
    requires a <= b && a != b
    ensures x in b - a
  {
    x :| x in b && x !in a;
  }

  function Position(order: seq<MeterId>, t: MeterId): (i: nat)
    requires t in order
    ensures i < |order| && order[i] == t
  {
    if order[0] == t then 0 else 1 + Position(order[1..], t)
  }

  /** Along a walk through an ordering, positions fall at every step. */
  lemma {:induction false} PositionsFall(deps: Graph, order: seq<MeterId>, c: seq<MeterId>, k: nat)
    requires Ordered(deps, order) && k < |c|
    requires forall i :: 0 <= i < |c| ==> c[i] in order
    requires forall i :: 0 <= i < |c| - 1 ==> c[i + 1] in deps[c[i]]
    ensures Position(order, c[k]) <= Position(order, c[0]) - k
  {
    if k > 0 {
      PositionsFall(deps, order, c, k - 1);
      Before(deps, order, c[k - 1], c[k]);
    }
  }

  lemma Before(deps: Graph, order: seq<MeterId>, t: MeterId, d: MeterId)
    requires Ordered(deps, order) && t in order && d in deps[t]
    ensures d in order && Position(order, d) < Position(order, t)
  {
    var i := Position(order, t);
    assert d in Elements(order[..i]);
    var j :| 0 <= j < i && order[j] == d;
  }

  lemma OrderedHasNoCycle(deps: Graph, order: seq<MeterId>, c: seq<MeterId>)
    requires Ordered(deps, order) && Elements(order) == deps.Keys
    ensures !IsCycle(deps, c)
  {
    if IsCycle(deps, c) {
      forall i | 0 <= i < |c| ensures c[i] in order {
        assert c[i] in Elements(order);
      }
      PositionsFall(deps, order, c, |c| - 1);
      Before(deps, order, c[|c| - 1], c[0]);
    }
  }

  /** A stuck ordering is complete exactly when the graph has no cycle. */
  lemma CompleteIffAcyclic(deps: Graph, order: seq<MeterId>)
    requires Closed(deps) && Ordered(deps, order) && Stuck(deps, order)
    ensures |order| == |deps| <==> !HasCycle(deps)
    ensures |order| == |deps| <==> Elements(order) == deps.Keys
  {
    assert Elements(order) <= deps.Keys;
    DistinctBound(order, deps.Keys);
    if Elements(order) == deps.Keys {
      DistinctSize(order);
      forall c ensures !IsCycle(deps, c) { OrderedHasNoCycle(deps, order, c); }
    } else {
      StuckMeansCycle(deps, order);
    }
  }

  lemma {:induction false} DistinctSize<T>(s: seq<T>)
    requires Distinct(s)
    ensures |Elements(s)| == |s|
  {
    if s != [] {
      var x, init := s[|s| - 1], s[..|s| - 1];
      DistinctSize(init);
      assert s == init + [x] && x !in init;
      assert Elements(s) == Elements(init) + {x};
    }
  }
}
