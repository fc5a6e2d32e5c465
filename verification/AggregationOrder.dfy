/** Kahn's algorithm, as the simulator runs it on its aggregation rules. */
module AggregationOrder {
  import opened Collections
  import opened Aggregation

  /** The in-degree counts the dependencies not yet done; a node is seen once that count is zero. */
  ghost predicate Tracked(deps: Graph, inDegree: map<MeterId, int>, t: MeterId, done: set<MeterId>, seen: seq<MeterId>)
    requires t in deps && t in inDegree
  {
    && inDegree[t] == |deps[t] - done|
    && (t in seen <==> deps[t] <= done)
  }

  ghost predicate Queued(deps: Graph, inDegree: map<MeterId, int>, result: seq<MeterId>, seen: seq<MeterId>) {
    && inDegree.Keys == deps.Keys
    && Ordered(deps, result) && Distinct(seen) && result <= seen
    && (forall t :: t in seen ==> t in deps)
    && (forall t :: t in deps ==> Tracked(deps, inDegree, t, Elements(result), seen))
  }

  lemma OneLess(d: set<MeterId>, done: set<MeterId>, t: MeterId)
    requires t !in done
    ensures |d - (done + {t})| == |d - done| - (if t in d then 1 else 0)
    ensures |d - (done + {t})| == 0 <==> d <= done + {t}
    ensures t !in d ==> (d <= done + {t} <==> d <= done)
  {
    if t in d {
      assert d - done == (d - (done + {t})) + {t};
    } else {
      assert d - done == d - (done + {t});
    }
    EmptyMeans(d, done + {t});
  }

  lemma EmptyMeans(a: set<MeterId>, b: set<MeterId>)
    ensures |a - b| == 0 <==> a <= b
  {
    if a <= b {
      assert a - b == {};
    } else {
      Outside(a, b);
      var x :| x in a && x !in b;
      assert x in a - b;
    }
  }

  lemma ElementsAppend<T>(s: seq<T>, x: T)
    ensures Elements(s + [x]) == Elements(s) + {x}
  {}

  /** The head of the queue extends the ordering. */
  lemma OrderedAppend(deps: Graph, result: seq<MeterId>, t: MeterId)
    requires Ordered(deps, result) && t in deps && t !in result && deps[t] <= Elements(result)
    ensures Ordered(deps, result + [t])
  {
    var longer := result + [t];
    forall i | 0 <= i < |longer|
      ensures longer[i] in deps && deps[longer[i]] <= Elements(longer[..i])
    {
      assert longer[..i] == result[..i];
      assert result[..|result|] == result;
    }
  }

  /** Nodes other than the one appended stay tracked. */
  lemma TrackedAppend(deps: Graph, inDegree: map<MeterId, int>, x: MeterId, done: set<MeterId>, seen: seq<MeterId>,
                      other: MeterId, n: int)
    requires x in deps && x in inDegree && x != other && Tracked(deps, inDegree, x, done, seen)
    ensures Tracked(deps, inDegree, x, done, seen + [other])
    ensures Tracked(deps, inDegree[other := n], x, done, seen)
    ensures Tracked(deps, inDegree[other := n], x, done, seen + [other])
  {}

  /** Finishing t takes one dependency off a node that has it, and completes the node when none is left. */
  lemma ReleaseStep(deps: Graph, inDegree: map<MeterId, int>, x: MeterId, t: MeterId, done: set<MeterId>,
                    seen: seq<MeterId>)
    requires x in deps && x in inDegree && t !in done && Tracked(deps, inDegree, x, done, seen)
    ensures t !in deps[x] ==> Tracked(deps, inDegree, x, done + {t}, seen)
    ensures t in deps[x] ==>
      var n := inDegree[x] - 1;
      && x !in seen
      && Tracked(deps, inDegree[x := n], x, done + {t}, if n == 0 then seen + [x] else seen)
  {
    OneLess(deps[x], done, t);
  }

  lemma InitiallyTracked(deps: Graph, inDegree: map<MeterId, int>, t: MeterId, seen: seq<MeterId>)
    requires t in deps && t in inDegree && inDegree[t] == |deps[t]| && t !in seen
    ensures Tracked(deps, inDegree, t, {}, if inDegree[t] == 0 then seen + [t] else seen)
  {
    assert deps[t] - {} == deps[t];
    EmptyMeans(deps[t], {});
  }

  lemma Assoc<T>(a: seq<T>, b: seq<T>, c: seq<T>)
    ensures a + (b + c) == a + b + c
  {}

  lemma Regroup<T>(a: seq<T>, b: seq<T>, c: seq<T>)
    requires b != []
    ensures a + [b[0]] + (b[1..] + c) == a + b + c
  {}

  lemma DistinctAppend<T>(s: seq<T>, x: T)
    requires Distinct(s) && x !in s
    ensures Distinct(s + [x])
  {}

  /** The first queue, with `todo` still to be looked at. */
  ghost predicate Starting(deps: Graph, inDegree: map<MeterId, int>, todo: set<MeterId>, queue: seq<MeterId>)
    requires inDegree.Keys == deps.Keys
  {
    && Distinct(queue)
    && (forall t :: t in queue ==> t in deps && t !in todo)
    && (forall t :: t in deps && t !in todo ==> Tracked(deps, inDegree, t, {}, queue))
  }

  lemma StartOne(deps: Graph, inDegree: map<MeterId, int>, todo: set<MeterId>, queue: seq<MeterId>, t: MeterId)
    requires inDegree.Keys == deps.Keys && t in deps && t in todo && inDegree[t] == |deps[t]|
    requires Starting(deps, inDegree, todo, queue)
    ensures Starting(deps, inDegree, todo - {t}, if inDegree[t] == 0 then queue + [t] else queue)
  {
    InitiallyTracked(deps, inDegree, t, queue);
    DistinctAppend(queue, t);
    hide Tracked, Distinct;
    if inDegree[t] == 0 {
      forall x | x in deps && x !in todo - {t}
        ensures Tracked(deps, inDegree, x, {}, queue + [t])
      {
        if x != t {
          TrackedAppend(deps, inDegree, x, {}, queue, t, 0);
        }
      }
    }
  }

  method InitialQueue(deps: Graph, inDegree: map<MeterId, int>) returns (queue: seq<MeterId>)
    requires inDegree.Keys == deps.Keys && forall t :: t in deps ==> inDegree[t] == |deps[t]|
    ensures Starting(deps, inDegree, {}, queue)
  {
    queue := [];
    var todo := deps.Keys;
    assert Starting(deps, inDegree, todo, queue);
    hide Starting;
    while todo != {}
      invariant todo <= deps.Keys && Starting(deps, inDegree, todo, queue)
      decreases |todo|
    {
      var t := Pick(todo);
      StartOne(deps, inDegree, todo, queue, t);
      todo := todo - {t};
      if inDegree[t] == 0 {
        queue := queue + [t];
      }
    }
  }

  lemma Started(deps: Graph, inDegree: map<MeterId, int>, queue: seq<MeterId>)
    requires inDegree.Keys == deps.Keys && Starting(deps, inDegree, {}, queue)
    ensures Queued(deps, inDegree, [], queue)
  {
    hide Tracked;
    assert Elements<MeterId>([]) == {};
  }

  /** Half-way through releasing t, with the nodes in `todo` still counting it. */
  ghost predicate Releasing(deps: Graph, inDegree: map<MeterId, int>, t: MeterId, done: set<MeterId>,
                            todo: set<MeterId>, seen: seq<MeterId>)
  {
    && inDegree.Keys == deps.Keys
    && Distinct(seen) && (forall x :: x in seen ==> x in deps)
    && (forall x :: x in deps ==> Tracked(deps, inDegree, x, if x in todo then done else done + {t}, seen))
  }

  lemma ReleaseSkip(deps: Graph, inDegree: map<MeterId, int>, t: MeterId, done: set<MeterId>, todo: set<MeterId>,
                    seen: seq<MeterId>, other: MeterId)
    requires Releasing(deps, inDegree, t, done, todo, seen) && other in deps && other in todo && t !in done
    requires t !in deps[other]
    ensures Releasing(deps, inDegree, t, done, todo - {other}, seen)
  {
    ReleaseStep(deps, inDegree, other, t, done, seen);
    hide Tracked, Distinct;
  }

  lemma ReleaseTake(deps: Graph, inDegree: map<MeterId, int>, t: MeterId, done: set<MeterId>, todo: set<MeterId>,
                    seen: seq<MeterId>, other: MeterId)
    requires Releasing(deps, inDegree, t, done, todo, seen) && other in deps && other in todo && t !in done
    requires t in deps[other]
    ensures var n := inDegree[other] - 1;
      && inDegree[other := n].Keys == deps.Keys
      && Releasing(deps, inDegree[other := n], t, done, todo - {other}, if n == 0 then seen + [other] else seen)
  {
    ReleaseStep(deps, inDegree, other, t, done, seen);
    hide Tracked, Distinct;
    SameKeys(inDegree, other, inDegree[other] - 1);
    DistinctAppend(seen, other);
    forall x | x in deps && x != other
      ensures var d := if x in todo then done else done + {t};
              Tracked(deps, inDegree[other := inDegree[other] - 1], x, d, seen)
              && Tracked(deps, inDegree[other := inDegree[other] - 1], x, d, seen + [other])
    {
      TrackedAppend(deps, inDegree, x, if x in todo then done else done + {t}, seen, other, inDegree[other] - 1);
    }
  }

  /** The inner loop: every node that depends on t has one dependency less. */
  method Release(deps: Graph, inDegree: map<MeterId, int>, t: MeterId, ghost done: set<MeterId>,
                 ghost seen: seq<MeterId>) returns (inDegree': map<MeterId, int>, released: seq<MeterId>)
    requires t !in done && Releasing(deps, inDegree, t, done, deps.Keys, seen)
    ensures Releasing(deps, inDegree', t, done, {}, seen + released)
  {
    assert inDegree.Keys == deps.Keys;
    inDegree', released := inDegree, [];
    ghost var all := seen;
    hide Releasing;
    var todo := deps.Keys;
    while todo != {}
      invariant todo <= deps.Keys && inDegree'.Keys == deps.Keys
      invariant Releasing(deps, inDegree', t, done, todo, all) && all == seen + released
      decreases |todo|
    {
      var other := Pick(todo);
      if t !in deps[other] {
        ReleaseSkip(deps, inDegree', t, done, todo, all, other);
      } else {
        ReleaseTake(deps, inDegree', t, done, todo, all, other);
        var n := inDegree'[other] - 1;
        inDegree' := inDegree'[other := n];
        if n == 0 {
          Assoc(seen, released, [other]);
          released := released + [other];
          all := all + [other];
        }
      }
      todo := todo - {other};
    }
  }

  lemma BeginRelease(deps: Graph, inDegree: map<MeterId, int>, result: seq<MeterId>, seen: seq<MeterId>, t: MeterId)
    requires Queued(deps, inDegree, result, seen)
    ensures Releasing(deps, inDegree, t, Elements(result), deps.Keys, seen)
  {
    hide Tracked, Elements;
  }

  lemma EndRelease(deps: Graph, inDegree: map<MeterId, int>, result: seq<MeterId>, seen: seq<MeterId>, t: MeterId,
                   done: set<MeterId>)
    requires Releasing(deps, inDegree, t, done, {}, seen)
    requires Ordered(deps, result) && Elements(result) == done + {t} && result <= seen
    ensures Queued(deps, inDegree, result, seen)
  {
    hide Tracked, Ordered, Elements;
  }

  /** What popping the head of the queue gives. */
  lemma Head(deps: Graph, inDegree: map<MeterId, int>, result: seq<MeterId>, seen: seq<MeterId>, t: MeterId)
    requires Queued(deps, inDegree, result, seen) && |result| < |seen| && t == seen[|result|]
    ensures t !in Elements(result) && Ordered(deps, result + [t])
    ensures Elements(result + [t]) == Elements(result) + {t}
  {
    Later(seen, result);
    assert Tracked(deps, inDegree, t, Elements(result), seen);
    OrderedAppend(deps, result, t);
    ElementsAppend(result, t);
  }

  lemma Extended(seen: seq<MeterId>, released: seq<MeterId>, result: seq<MeterId>, t: MeterId)
    requires result <= seen && |result| < |seen| && t == seen[|result|]
    ensures result + [t] <= seen + released
  {
    assert seen[..|result| + 1] == result + [t];
  }

  lemma Later(seen: seq<MeterId>, result: seq<MeterId>)
    requires Distinct(seen) && result <= seen && |result| < |seen|
    ensures seen[|result|] !in result
  {}

  method KahnOrder(deps: Graph) returns (result: seq<MeterId>)
    requires Closed(deps)
    ensures Ordered(deps, result) && Stuck(deps, result)
  {
    var inDegree: map<MeterId, int> := map t | t in deps :: |deps[t]|;
    var queue := InitialQueue(deps, inDegree);
    Started(deps, inDegree, queue);
    result := [];
    assert queue == result + queue;
    hide Queued, Releasing, Ordered, Elements;
    while queue != []
      invariant Queued(deps, inDegree, result, result + queue)
      decreases |deps| - |result|
    {
      var t := queue[0];
      ghost var seen, done := result + queue, Elements(result);
      Head(deps, inDegree, result, seen, t);
      SeenBound(deps, inDegree, result, seen);
      BeginRelease(deps, inDegree, result, seen, t);
      var released: seq<MeterId>;
      inDegree, released := Release(deps, inDegree, t, done, seen);
      Extended(seen, released, result, t);
      Regroup(result, queue, released);
      result := result + [t];
      queue := queue[1..] + released;
      EndRelease(deps, inDegree, result, result + queue, t, done);
    }
    assert result + queue == result;
    AllSeen(deps, inDegree, result);
  }

  lemma AllSeen(deps: Graph, inDegree: map<MeterId, int>, result: seq<MeterId>)
    requires Queued(deps, inDegree, result, result)
    ensures Ordered(deps, result) && Stuck(deps, result)
  {
    hide Ordered, Elements;
  }

  lemma SeenBound(deps: Graph, inDegree: map<MeterId, int>, result: seq<MeterId>, seen: seq<MeterId>)
    requires Queued(deps, inDegree, result, seen)
    ensures |result| <= |seen| <= |deps|
  {
    DistinctBound(seen, deps.Keys);
  }
}
