/** What a node's state tells, what losing leaves behind, and that the others can take over. */
module ElectionProgress {
  import opened Numeric
  import opened ElectionModel
  import opened ElectionSafety
  import opened ElectionReports

  // ---- States ----

  /** The state a node reports, by its place in the code. Only a raise out of `on_elected` lets a LEADER campaign. */
  ghost predicate Tells(nd: Node) {
    match nd.phase
    case Idle => nd.state.Stopped?
    case Electing(_, _) => nd.state.Leader?
    case Leading(_, loop) => if loop.Some? then nd.state.Leader? else nd.state.Follower?
    case Dropping(_) => nd.state.Follower?
    case Watching => nd.state.Follower? && nd.lease.None?
    case _ => nd.state.Candidate? || nd.state.Leader?
  }

  /** A lease a node has not won with yet. */
  function Pending(nd: Node): Option<LeaseId> {
    match nd.phase
    case Granted(l, _) => Some(l)
    case Reading(l) => Some(l)
    case Dropping(l) => Some(l)
    case _ => None
  }

  /** Such a lease belongs to the node alone and does not carry the key. */
  ghost predicate Apart(s: Cluster, n: NodeId)
    requires n < |s.nodes|
  {
    Pending(s.nodes[n]).Some? ==>
      && Owns(s, n, Pending(s.nodes[n]).value)
      && (s.etcd.key.Some? ==> s.etcd.key.value.l != Pending(s.nodes[n]).value)
  }

  ghost predicate Settled(s: Cluster) {
    && (s.etcd.key.Some? ==> s.etcd.key.value.l < |s.owners| && Owns(s, s.etcd.key.value.value, s.etcd.key.value.l))
    && forall n :: 0 <= n < |s.nodes| ==> Tells(s.nodes[n]) && Apart(s, n)
  }

  lemma StepTells(cfg: Config, s: Cluster, e: Event, n: NodeId)
    requires Enabled(s, e) && n < |s.nodes| && Tells(s.nodes[n])
    ensures n < |Next(cfg, s, e).nodes| && Tells(Next(cfg, s, e).nodes[n])
  {}

  lemma StepApart(cfg: Config, s: Cluster, e: Event, n: NodeId)
    requires Enabled(s, e) && n < |s.nodes| && Settled(s)
    ensures n < |Next(cfg, s, e).nodes| && Apart(Next(cfg, s, e), n)
  {
    assert Apart(s, n);
    if At(e, n) {
      OwnStepApart(cfg, s, e);
    } else {
      OtherStepApart(cfg, s, e, n);
    }
    hide *;
  }

  lemma OwnStepApart(cfg: Config, s: Cluster, e: Event)
    requires Enabled(s, e) && !e.Expire? && !e.Advance? && Settled(s)
    ensures Apart(Next(cfg, s, e), e.n)
  {
    assert Apart(s, e.n);
  }

  lemma OtherStepApart(cfg: Config, s: Cluster, e: Event, n: NodeId)
    requires Enabled(s, e) && n < |s.nodes| && Settled(s) && !At(e, n)
    ensures n < |Next(cfg, s, e).nodes| && Apart(Next(cfg, s, e), n)
  {
    assert Apart(s, n);
    if !e.Expire? && !e.Advance? {
      assert Apart(s, e.n);
    }
  }

  lemma StepKey(cfg: Config, s: Cluster, e: Event)
    requires Enabled(s, e) && Settled(s)
    ensures var key := Next(cfg, s, e).etcd.key;
      key.Some? ==> Owns(Next(cfg, s, e), key.value.value, key.value.l)
  {
    if !e.Expire? && !e.Advance? {
      assert Apart(s, e.n);
    }
  }

  lemma {:induction false} RunSettled(cfg: Config, es: seq<Event>)
    requires Run(cfg, es).Some?
    ensures Settled(Run(cfg, es).value)
    decreases |es|
  {
    if es != [] {
      LastStep(cfg, es);
      RunSettled(cfg, Init(es));
      var s := Run(cfg, Init(es)).value;
      SameNodes(cfg, es);
      SameNodes(cfg, Init(es));
      StepKey(cfg, s, Last(es));
      hide Run, Next, Enabled, Tells, Apart;
      forall n | 0 <= n < |s.nodes| ensures Tells(Run(cfg, es).value.nodes[n]) && Apart(Run(cfg, es).value, n) {
        StepTells(cfg, s, Last(es), n);
        StepApart(cfg, s, Last(es), n);
      }
    }
  }

  /** On every run each node's state is that of its phase. */
  lemma StateTells(cfg: Config, es: seq<Event>, n: NodeId)
    requires Run(cfg, es).Some? && n < cfg.nodes
    ensures n < |Run(cfg, es).value.nodes| && Tells(Run(cfg, es).value.nodes[n])
  {
    SameNodes(cfg, es);
    RunSettled(cfg, es);
  }

  // ---- Losing ----

  /** A loser that gives its lease up watches without one: the lease is gone, all others and the winner's key stay. */
  lemma LoserLetsGo(cfg: Config, es: seq<Event>, n: NodeId)
    requires Run(cfg, es + [Drop(n, true)]).Some?
    ensures Run(cfg, es).Some?
    ensures var s, t := Run(cfg, es).value, Run(cfg, es + [Drop(n, true)]).value;
      && n < |s.nodes| && n < |t.nodes| && s.nodes[n].phase.Dropping?
      && t.nodes[n].phase.Watching? && t.nodes[n].lease.None?
      && t.etcd.leases == s.etcd.leases - {s.nodes[n].phase.l} && t.etcd.key == s.etcd.key
  {
    var more := es + [Drop(n, true)];
    assert Init(more) == es && Last(more) == Drop(n, true);
    LastStep(cfg, more);
    RunSettled(cfg, es);
    assert Apart(Run(cfg, es).value, n);
    hide Run;
  }

  // ---- Taking over ----

  lemma Follows(cfg: Config, es: seq<Event>, e: Event)
    requires Run(cfg, es).Some? && Enabled(Run(cfg, es).value, e)
    ensures Run(cfg, es + [e]) == Some(Next(cfg, Run(cfg, es).value, e))
  {
    assert (es + [e])[..|es|] == es;
    hide Next, Enabled;
  }

  /** Once the key is gone, any watching node can become the leader in three steps of its own. */
  lemma WatcherTakesOver(cfg: Config, es: seq<Event>, n: NodeId)
    requires cfg.Valid() && Run(cfg, es).Some? && n < |Run(cfg, es).value.nodes|
    requires Run(cfg, es).value.nodes[n].phase.Watching? && Run(cfg, es).value.etcd.key.None?
    ensures Run(cfg, es + [Poll(n)] + [Grant(n)] + [Win(n)]).Some?
    ensures var s, t := Run(cfg, es).value, Run(cfg, es + [Poll(n)] + [Grant(n)] + [Win(n)]).value;
      && n < |t.nodes| && t.nodes[n].state.Leader? && t.nodes[n].leader == Some(n)
      && t.etcd.key == Some(Entry(n, |s.owners|)) && t.nodes[n].lease == Some(|s.owners|)
      && |s.owners| in t.etcd.leases && t.etcd.leases[|s.owners|] == t.now + cfg.ttl
  {
    var s := Run(cfg, es).value;
    Follows(cfg, es, Poll(n));
    var s1 := Next(cfg, s, Poll(n));
    Follows(cfg, es + [Poll(n)], Grant(n));
    var s2 := Next(cfg, s1, Grant(n));
    Follows(cfg, es + [Poll(n)] + [Grant(n)], Win(n));
    hide Run;
  }

  /** And the key goes with the lease of its owner. */
  lemma KeyExpires(cfg: Config, es: seq<Event>)
    requires Run(cfg, es).Some? && Run(cfg, es).value.etcd.key.Some?
    requires var s := Run(cfg, es).value;
      s.etcd.key.value.l in s.etcd.leases && s.now >= s.etcd.leases[s.etcd.key.value.l]
    ensures var s := Run(cfg, es).value;
      var t := Run(cfg, es + [Expire(s.etcd.key.value.l)]);
      t.Some? && t.value.etcd.key.None? && t.value.nodes == s.nodes && t.value.now == s.now
  {
    Follows(cfg, es, Expire(Run(cfg, es).value.etcd.key.value.l));
    hide Run;
  }
}
