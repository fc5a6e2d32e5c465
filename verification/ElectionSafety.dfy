/** At most one leader holds a live lease, over every interleaving. */
module ElectionSafety {
  import opened Numeric
  import opened ElectionModel

  /** The lease a node won the election with and keeps alive. */
  function WonLease(nd: Node): Option<LeaseId> {
    if nd.phase.Electing? || nd.phase.Leading? then Some(nd.phase.l) else None
  }

  function PhaseLease(p: Phase): Option<LeaseId> {
    match p
    case Granted(l, _) => Some(l)
    case Electing(l, _) => Some(l)
    case Leading(l, _) => Some(l)
    case Reading(l) => Some(l)
    case Dropping(l) => Some(l)
    case _ => None
  }

  ghost predicate Owns(s: Cluster, n: NodeId, l: LeaseId) {
    l < |s.owners| && s.owners[l] == n
  }

  ghost predicate EtcdInv(s: Cluster) {
    && (forall l :: l in s.etcd.leases ==> l < |s.owners|)
    && (s.etcd.key.Some? ==>
        && s.etcd.key.value.l in s.etcd.leases
        && Owns(s, s.etcd.key.value.value, s.etcd.key.value.l))
  }

  ghost predicate NodeInv(s: Cluster, n: NodeId, nd: Node) {
    && (PhaseLease(nd.phase).Some? ==> Owns(s, n, PhaseLease(nd.phase).value))
    && (nd.lease.Some? ==> Owns(s, n, nd.lease.value))
    && (nd.state.Leader? ==> nd.leader == Some(n))
    && (WonLease(nd).Some? && WonLease(nd).value in s.etcd.leases ==>
        s.etcd.key == Some(Entry(n, WonLease(nd).value)))
  }

  ghost predicate Inv(s: Cluster) {
    EtcdInv(s) && forall n :: 0 <= n < |s.nodes| ==> NodeInv(s, n, s.nodes[n])
  }

  lemma StepKeepsEtcd(cfg: Config, s: Cluster, e: Event)
    requires Inv(s) && Enabled(s, e)
    ensures EtcdInv(Next(cfg, s, e))
  {
    if !e.Expire? && !e.Advance? {
      assert NodeInv(s, e.n, s.nodes[e.n]);
    }
  }

  lemma StepKeepsOthers(cfg: Config, s: Cluster, e: Event, n: NodeId)
    requires Inv(s) && Enabled(s, e) && n < |s.nodes|
    requires e.Expire? || e.Advance? || n != e.n
    ensures NodeInv(Next(cfg, s, e), n, s.nodes[n])
  {
    assert NodeInv(s, n, s.nodes[n]);
    if !e.Expire? && !e.Advance? {
      assert NodeInv(s, e.n, s.nodes[e.n]);
    }
  }

  lemma StepKeepsActor(cfg: Config, s: Cluster, e: Event)
    requires Inv(s) && Enabled(s, e) && !e.Expire? && !e.Advance?
    ensures NodeInv(Next(cfg, s, e), e.n, Next(cfg, s, e).nodes[e.n])
  {
    assert NodeInv(s, e.n, s.nodes[e.n]);
  }

  lemma StepKeepsInv(cfg: Config, s: Cluster, e: Event)
    requires Inv(s) && Enabled(s, e)
    ensures Inv(Next(cfg, s, e))
  {
    StepKeepsEtcd(cfg, s, e);
    forall n | 0 <= n < |s.nodes| ensures NodeInv(Next(cfg, s, e), n, Next(cfg, s, e).nodes[n]) {
      if e.Expire? || e.Advance? || n != e.n {
        StepKeepsOthers(cfg, s, e, n);
      } else {
        StepKeepsActor(cfg, s, e);
      }
    }
  }

  lemma {:induction false} RunKeepsInv(cfg: Config, es: seq<Event>)
    ensures Run(cfg, es).Some? ==> Inv(Run(cfg, es).value)
  {
    if es != [] && Run(cfg, es).Some? {
      RunKeepsInv(cfg, es[..|es| - 1]);
      StepKeepsInv(cfg, Run(cfg, es[..|es| - 1]).value, es[|es| - 1]);
    }
  }

  /** A leader whose won lease is live. */
  ghost predicate Rules(s: Cluster, n: NodeId) {
    && n < |s.nodes| && s.nodes[n].state.Leader?
    && WonLease(s.nodes[n]).Some? && WonLease(s.nodes[n]).value in s.etcd.leases
  }

  /** Whatever the interleaving: a leader whose lease lives owns the key, so there is at most one. It reports
      itself as the current leader. */
  lemma OneRuler(cfg: Config, es: seq<Event>, a: NodeId, b: NodeId)
    requires Run(cfg, es).Some?
    ensures var s := Run(cfg, es).value;
      Rules(s, a) ==>
      && s.etcd.key == Some(Entry(a, WonLease(s.nodes[a]).value))
      && s.nodes[a].leader == Some(a)
      && (Rules(s, b) ==> a == b)
  {
    RunKeepsInv(cfg, es);
  }

  // ---- The same in terms of the `_lease` field ----

  /** Every `on_elected` callback of the run returned. */
  ghost predicate Calm(es: seq<Event>) {
    forall i :: 0 <= i < |es| ==> !es[i].CallbackRaise?
  }

  ghost predicate CalmNode(nd: Node) {
    && (nd.state.Leader? <==> nd.phase.Electing? || (nd.phase.Leading? && nd.phase.loop.Some?))
    && (nd.state.Leader? && nd.lease.Some? ==> nd.lease == WonLease(nd))
    && (nd.phase.Granted? ==> nd.lease == Some(nd.phase.l))
  }

  ghost predicate CalmInv(s: Cluster) {
    forall n :: 0 <= n < |s.nodes| ==> CalmNode(s.nodes[n])
  }

  lemma StepKeepsCalm(cfg: Config, s: Cluster, e: Event)
    requires CalmInv(s) && Enabled(s, e) && !e.CallbackRaise?
    ensures CalmInv(Next(cfg, s, e))
  {
    hide EtcdAfter, Without, Renewed;
    if !e.Expire? && !e.Advance? {
      assert CalmNode(s.nodes[e.n]);
    }
  }

  lemma {:induction false} RunKeepsCalm(cfg: Config, es: seq<Event>)
    requires Calm(es)
    ensures Run(cfg, es).Some? ==> CalmInv(Run(cfg, es).value)
  {
    if es != [] && Run(cfg, es).Some? {
      RunKeepsCalm(cfg, es[..|es| - 1]);
      StepKeepsCalm(cfg, Run(cfg, es[..|es| - 1]).value, es[|es| - 1]);
    }
  }

  /** LEADER, and `_lease` is live. */
  ghost predicate Reigns(s: Cluster, n: NodeId) {
    && n < |s.nodes| && s.nodes[n].state.Leader?
    && s.nodes[n].lease.Some? && s.nodes[n].lease.value in s.etcd.leases
  }

  /** If no `on_elected` raised, a LEADER whose `_lease` is live owns the key under that lease. */
  lemma OneLeader(cfg: Config, es: seq<Event>, a: NodeId, b: NodeId)
    requires Calm(es) && Run(cfg, es).Some?
    ensures var s := Run(cfg, es).value;
      Reigns(s, a) ==>
      && s.etcd.key == Some(Entry(a, s.nodes[a].lease.value))
      && (Reigns(s, b) ==> a == b)
  {
    RunKeepsCalm(cfg, es);
    OneRuler(cfg, es, a, b);
  }

  lemma Extend(cfg: Config, es: seq<Event>, e: Event)
    requires Run(cfg, es).Some? && Enabled(Run(cfg, es).value, e)
    ensures Run(cfg, es + [e]) == Some(Next(cfg, Run(cfg, es).value, e))
  {
    assert (es + [e])[..|es|] == es;
  }

  const IDLE := Node(Stopped, None, None, Idle)

  /** A cluster where only nodes 0 and 1 have done anything. */
  function Pair(cfg: Config, now: real, etcd: Etcd, owners: seq<NodeId>, first: Node, second: Node): Cluster
    requires cfg.nodes >= 2
  {
    Cluster(now, etcd, owners, seq(cfg.nodes, i => if i == 0 then first else if i == 1 then second else IDLE))
  }

  function Only(cfg: Config, now: real, etcd: Etcd, owners: seq<NodeId>, first: Node): Cluster
    requires cfg.nodes >= 2
  {
    Pair(cfg, now, etcd, owners, first, IDLE)
  }

  /** One event at node 0. */
  lemma OnlyStep(cfg: Config, now: real, etcd: Etcd, owners: seq<NodeId>, first: Node, e: Event)
    requires cfg.nodes >= 2 && !e.Expire? && !e.Advance? && e.n == 0
    requires var s := Only(cfg, now, etcd, owners, first); EnabledAt(s, first, e)
    ensures var s := Only(cfg, now, etcd, owners, first);
      Enabled(s, e) &&
      Next(cfg, s, e) ==
        Only(cfg, now, EtcdAfter(cfg, s, first, e), if e.Grant? || e.GrantLost? then owners + [0] else owners,
             NodeAfter(cfg, s, first, e))
  {
    hide EtcdAfter, NodeAfter, EnabledAt;
    var s := Only(cfg, now, etcd, owners, first);
    assert s.nodes[0 := NodeAfter(cfg, s, first, e)] ==
           Only(cfg, now, etcd, owners, NodeAfter(cfg, s, first, e)).nodes;
  }

  /** One event at node 1. */
  lemma SecondStep(cfg: Config, now: real, etcd: Etcd, owners: seq<NodeId>, first: Node, second: Node, e: Event)
    requires cfg.nodes >= 2 && !e.Expire? && !e.Advance? && e.n == 1
    requires var s := Pair(cfg, now, etcd, owners, first, second); EnabledAt(s, second, e)
    ensures var s := Pair(cfg, now, etcd, owners, first, second);
      Enabled(s, e) &&
      Next(cfg, s, e) ==
        Pair(cfg, now, EtcdAfter(cfg, s, second, e), if e.Grant? || e.GrantLost? then owners + [1] else owners,
             first, NodeAfter(cfg, s, second, e))
  {
    hide EtcdAfter, NodeAfter, EnabledAt;
    var s := Pair(cfg, now, etcd, owners, first, second);
    assert s.nodes[1 := NodeAfter(cfg, s, second, e)] ==
           Pair(cfg, now, etcd, owners, first, NodeAfter(cfg, s, second, e)).nodes;
  }

  lemma InitialOnly(cfg: Config)
    requires cfg.nodes >= 2
    ensures Initial(cfg) == Only(cfg, 0.0, Etcd(map[], None), [], IDLE)
  {}

  function FirstWins(): seq<Event> {
    [Start(0), Grant(0), Win(0)]
  }

  const TRYING := Node(Candidate, None, None, Trying)
  const GRANTED := Node(Candidate, Some(0), None, Granted(0, 0.0))
  const ELECTED := Node(Leader, Some(0), Some(0), Electing(0, 0.0))

  lemma FirstGrant(cfg: Config)
    requires cfg.nodes >= 2
    ensures Run(cfg, [Start(0), Grant(0)]) == Some(Only(cfg, 0.0, Etcd(map[0 := cfg.ttl], None), [0], GRANTED))
  {
    var none := Etcd(map[], None);
    InitialOnly(cfg);
    OnlyStep(cfg, 0.0, none, [], IDLE, Start(0));
    OnlyStep(cfg, 0.0, none, [], TRYING, Grant(0));
    hide Only, Enabled, Next, Initial;
    Extend(cfg, [], Start(0));
    Extend(cfg, [] + [Start(0)], Grant(0));
    assert [] + [Start(0)] + [Grant(0)] == [Start(0), Grant(0)];
    assert map[][0 := 0.0 + cfg.ttl] == map[0 := cfg.ttl];
    assert [] + [0] == [0];
  }

  lemma FirstWinning(cfg: Config)
    requires cfg.nodes >= 2
    ensures Run(cfg, FirstWins()) == Some(Only(cfg, 0.0, Etcd(map[0 := cfg.ttl], Some(Entry(0, 0))), [0], ELECTED))
  {
    var one := Etcd(map[0 := cfg.ttl], None);
    FirstGrant(cfg);
    OnlyStep(cfg, 0.0, one, [0], GRANTED, Win(0));
    hide Enabled, Next, Initial;
    Extend(cfg, [Start(0), Grant(0)], Win(0));
    assert [Start(0), Grant(0)] + [Win(0)] == FirstWins();
  }

  lemma AdvanceOnly(cfg: Config, es: seq<Event>, now: real, etcd: Etcd, owners: seq<NodeId>, first: Node, dt: real)
    requires cfg.nodes >= 2 && dt >= 0.0 && Run(cfg, es) == Some(Only(cfg, now, etcd, owners, first))
    ensures Run(cfg, es + [Advance(dt)]) == Some(Only(cfg, now + dt, etcd, owners, first))
  {
    Extend(cfg, es, Advance(dt));
  }

  lemma ExpireFirst(cfg: Config, es: seq<Event>, now: real, expiry: real, first: Node)
    requires cfg.nodes >= 2 && expiry <= now
    requires Run(cfg, es) == Some(Only(cfg, now, Etcd(map[0 := expiry], Some(Entry(0, 0))), [0], first))
    ensures Run(cfg, es + [Expire(0)]) == Some(Only(cfg, now, Etcd(map[], None), [0], first))
  {
    assert map[0 := expiry] - {0} == map[];
    Extend(cfg, es, Expire(0));
  }

  lemma SecondGrants(cfg: Config, es: seq<Event>, now: real, first: Node)
    requires cfg.nodes >= 2
    requires Run(cfg, es) == Some(Only(cfg, now, Etcd(map[], None), [0], first))
    ensures Run(cfg, es + [Start(1)] + [Grant(1)]) ==
      Some(Pair(cfg, now, Etcd(map[1 := now + cfg.ttl], None), [0, 1], first,
                Node(Candidate, Some(1), None, Granted(1, now))))
  {
    var none := Etcd(map[], None);
    SecondStep(cfg, now, none, [0], first, IDLE, Start(1));
    SecondStep(cfg, now, none, [0], first, TRYING, Grant(1));
    assert map[][1 := now + cfg.ttl] == map[1 := now + cfg.ttl];
    assert [0] + [1] == [0, 1];
    hide Enabled, Next, Pair;
    Extend(cfg, es, Start(1));
    Extend(cfg, es + [Start(1)], Grant(1));
  }

  /** The lease of node 0 runs out; node 1 starts, finds no key and wins. */
  lemma SecondWins(cfg: Config, es: seq<Event>, now: real, expiry: real, first: Node)
      returns (more: seq<Event>, s: Cluster)
    requires cfg.nodes >= 2 && expiry <= now
    requires Run(cfg, es) == Some(Only(cfg, now, Etcd(map[0 := expiry], Some(Entry(0, 0))), [0], first))
    ensures more == [Expire(0), Start(1), Grant(1), Win(1)] && Run(cfg, es + more) == Some(s)
    ensures s == Pair(cfg, now, Etcd(map[1 := now + cfg.ttl], Some(Entry(1, 1))), [0, 1], first,
                      Node(Leader, Some(1), Some(1), Electing(1, now)))
  {
    more := [Expire(0), Start(1), Grant(1), Win(1)];
    ExpireFirst(cfg, es, now, expiry, first);
    SecondGrants(cfg, es + [Expire(0)], now, first);
    var granted := Node(Candidate, Some(1), None, Granted(1, now));
    var etcd := Etcd(map[1 := now + cfg.ttl], None);
    SecondStep(cfg, now, etcd, [0, 1], first, granted, Win(1));
    s := Next(cfg, Pair(cfg, now, etcd, [0, 1], first, granted), Win(1));
    hide Enabled, Next, Pair;
    Extend(cfg, es + [Expire(0)] + [Start(1)] + [Grant(1)], Win(1));
    assert es + [Expire(0)] + [Start(1)] + [Grant(1)] + [Win(1)] == es + more;
  }

  lemma FirstRaises(cfg: Config) returns (es: seq<Event>)
    requires cfg.Valid() && cfg.nodes >= 2
    ensures Run(cfg, es) == Some(Only(cfg, cfg.ttl, Etcd(map[0 := cfg.ttl], Some(Entry(0, 0))), [0],
                                      ELECTED.(phase := Trying)))
  {
    var etcd := Etcd(map[0 := cfg.ttl], Some(Entry(0, 0)));
    assert EnabledAt(Only(cfg, 0.0, etcd, [0], ELECTED), ELECTED, CallbackRaise(0));
    hide Enabled, Next, Only, FirstWins, Run, EnabledAt;
    FirstWinning(cfg);
    OnlyStep(cfg, 0.0, etcd, [0], ELECTED, CallbackRaise(0));
    Extend(cfg, FirstWins(), CallbackRaise(0));
    es := FirstWins() + [CallbackRaise(0)];
    AdvanceOnly(cfg, es, 0.0, etcd, [0], ELECTED.(phase := Trying), cfg.ttl);
    es := es + [Advance(cfg.ttl)];
  }

  /** After a raising `on_elected`, two nodes can be LEADER with a live `_lease`, whatever the configuration. */
  lemma RaisingCallbackEscapes(cfg: Config) returns (es: seq<Event>)
    requires cfg.Valid() && cfg.nodes >= 2
    ensures Run(cfg, es).Some? && Reigns(Run(cfg, es).value, 0) && Reigns(Run(cfg, es).value, 1)
  {
    es := FirstRaises(cfg);
    var more, s := SecondWins(cfg, es, cfg.ttl, cfg.ttl, ELECTED.(phase := Trying));
    es := es + more;
    OneMoreGrant(cfg, es, s);
    es := es + [Grant(0)];
  }

  lemma OneMoreGrant(cfg: Config, es: seq<Event>, s: Cluster)
    requires Run(cfg, es) == Some(s) && |s.nodes| >= 2 && |s.owners| >= 2
    requires s.nodes[0].phase.Trying? && s.nodes[0].state.Leader? && Reigns(s, 1)
    ensures Run(cfg, es + [Grant(0)]).Some?
    ensures var t := Run(cfg, es + [Grant(0)]).value; Reigns(t, 0) && Reigns(t, 1)
  {
    Extend(cfg, es, Grant(0));
  }

  // ---- After fencing, and after resigning ----

  /** The keepalive loop has given up. */
  predicate Fenced(nd: Node) {
    nd.phase.Leading? && nd.phase.loop.None?
  }

  lemma {:induction false} FencedIsNoLeader(cfg: Config, es: seq<Event>, n: NodeId)
    requires Run(cfg, es).Some? && n < |Run(cfg, es).value.nodes|
    ensures var nd := Run(cfg, es).value.nodes[n]; Fenced(nd) ==> !nd.state.Leader?
  {
    if es != [] {
      hide Enabled, Next, Fenced;
      FencingStep(cfg, Run(cfg, es[..|es| - 1]).value, es[|es| - 1], n);
      FencedIsNoLeader(cfg, es[..|es| - 1], n);
    }
  }

  lemma FencingStep(cfg: Config, s: Cluster, e: Event, n: NodeId)
    requires Enabled(s, e) && n < |Next(cfg, s, e).nodes|
    ensures n < |s.nodes|
    ensures (Fenced(s.nodes[n]) ==> !s.nodes[n].state.Leader?) ==>
      var nd := Next(cfg, s, e).nodes[n]; Fenced(nd) ==> !nd.state.Leader?
  {
    hide EtcdAfter;
  }

  lemma LastEvent(cfg: Config, es: seq<Event>)
    requires es != [] && Run(cfg, es).Some?
    ensures var init, e := es[..|es| - 1], es[|es| - 1];
      && Run(cfg, init).Some? && Enabled(Run(cfg, init).value, e)
      && Run(cfg, es).value == Next(cfg, Run(cfg, init).value, e)
  {
    hide Enabled, Next, Initial;
  }

  /** Fencing is final: until it is stopped, nothing changes a fenced node, so it never campaigns again. */
  lemma {:induction false} FencedForever(cfg: Config, es: seq<Event>, more: seq<Event>, n: NodeId)
    requires Run(cfg, es).Some? && n < |Run(cfg, es).value.nodes| && Fenced(Run(cfg, es).value.nodes[n])
    requires Run(cfg, es + more).Some? && Stop(n) !in more
    ensures n < |Run(cfg, es + more).value.nodes|
    ensures Run(cfg, es + more).value.nodes[n] == Run(cfg, es).value.nodes[n]
    ensures !Run(cfg, es).value.nodes[n].state.Leader?
  {
    FencedIsNoLeader(cfg, es, n);
    hide Enabled, Next, Run, Fenced;
    if more == [] {
      assert es + more == es;
    } else {
      LastEvent(cfg, es + more);
      assert (es + more)[..|es + more| - 1] == es + more[..|more| - 1];
      FencedForever(cfg, es, more[..|more| - 1], n);
      FencedStep(cfg, Run(cfg, es + more[..|more| - 1]).value, more[|more| - 1], n);
    }
  }

  lemma FencedStep(cfg: Config, s: Cluster, e: Event, n: NodeId)
    requires Enabled(s, e) && n < |s.nodes| && Fenced(s.nodes[n]) && !s.nodes[n].state.Leader? && e != Stop(n)
    ensures |Next(cfg, s, e).nodes| == |s.nodes| && Next(cfg, s, e).nodes[n] == s.nodes[n]
  {
    hide EtcdAfter;
  }

  lemma FirstResigns(cfg: Config) returns (es: seq<Event>)
    requires cfg.nodes >= 2
    ensures Run(cfg, es) == Some(Only(cfg, 0.0, Etcd(map[], None), [0], ELECTED.(lease := None)))
    ensures es == FirstWins() + [Resign(0, true)]
  {
    var etcd := Etcd(map[0 := cfg.ttl], Some(Entry(0, 0)));
    assert Without(etcd, 0) == Etcd(map[], None) by {
      assert map[0 := cfg.ttl] - {0} == map[];
    }
    hide Enabled, Next, Only, FirstWins, Run, Without;
    FirstWinning(cfg);
    OnlyStep(cfg, 0.0, etcd, [0], ELECTED, Resign(0, true));
    Extend(cfg, FirstWins(), Resign(0, true));
    es := FirstWins() + [Resign(0, true)];
  }

  /** A node that resigned is still LEADER when, at the same instant, another one has won: no call failed, and no
      callback raised. */
  lemma ResignedStaysLeader(cfg: Config) returns (es: seq<Event>)
    requires cfg.nodes >= 2
    ensures es == FirstWins() + [Resign(0, true), Start(1), Grant(1), Win(1)] && Run(cfg, es).Some?
    ensures var s := Run(cfg, es).value; |s.nodes| == cfg.nodes && s.nodes[0].state.Leader? && s.nodes[1].state.Leader?
  {
    var first := ELECTED.(lease := None);
    var granted, etcd := Node(Candidate, Some(1), None, Granted(1, 0.0)), Etcd(map[1 := 0.0 + cfg.ttl], None);
    es := FirstResigns(cfg);
    SecondGrants(cfg, es, 0.0, first);
    SecondStep(cfg, 0.0, etcd, [0, 1], first, granted, Win(1));
    hide Enabled, Next, Run, FirstWins;
    Extend(cfg, es + [Start(1)] + [Grant(1)], Win(1));
    es := es + [Start(1)] + [Grant(1)] + [Win(1)];
    assert es == FirstWins() + [Resign(0, true), Start(1), Grant(1), Win(1)];
  }
}
