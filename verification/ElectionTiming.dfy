/** Self-fencing against lease expiry, in runs where calls are instantaneous and timeouts are on time. */
module ElectionTiming {
  import opened Numeric
  import opened ElectionModel
  import opened ElectionSafety

  /** Until when a node may be left alone: grant and transaction take no time, `on_elected` at most its bound,
      and a keepalive attempt comes when its wait ends. */
  ghost predicate Waits(cfg: Config, nd: Node, t: real) {
    match nd.phase
    case Granted(_, at) => t <= at
    case Electing(_, at) => t <= at + cfg.callback
    case Leading(_, Some(loop)) => t <= loop.due
    case _ => true
  }

  ghost predicate Prompt(cfg: Config, s: Cluster, e: Event) {
    && !e.CallbackRaise?
    && (e.Advance? ==> forall n :: 0 <= n < |s.nodes| ==> Waits(cfg, s.nodes[n], s.now + e.dt))
  }

  ghost predicate PromptRun(cfg: Config, es: seq<Event>) {
    Run(cfg, es).Some? &&
    (es != [] ==>
     && PromptRun(cfg, es[..|es| - 1])
     && Prompt(cfg, Run(cfg, es[..|es| - 1]).value, es[|es| - 1]))
  }

  /** A lease renewed at time t lives on for at least the TTL. */
  ghost predicate Fresh(cfg: Config, s: Cluster, l: LeaseId, t: real) {
    if l in s.etcd.leases then s.etcd.leases[l] >= t + cfg.ttl else s.now >= t + cfg.ttl
  }

  ghost predicate LoopInv(cfg: Config, now: real, loop: Loop) {
    && loop.failures < cfg.maxFailures
    && loop.renewed <= loop.base <= now
    && loop.base <= loop.renewed + cfg.callback
    && now <= loop.due == loop.base + Times(loop.failures + 1, cfg.Interval())
  }

  ghost predicate TimedNode(cfg: Config, s: Cluster, nd: Node) {
    match nd.phase
    case Granted(l, at) => at == s.now && Fresh(cfg, s, l, at)
    case Electing(l, at) => at <= s.now <= at + cfg.callback && (nd.lease.Some? ==> Fresh(cfg, s, l, at))
    case Leading(l, Some(loop)) => LoopInv(cfg, s.now, loop) && (nd.lease.Some? ==> Fresh(cfg, s, l, loop.renewed))
    case _ => true
  }

  ghost predicate TimedInv(cfg: Config, s: Cluster) {
    forall n :: 0 <= n < |s.nodes| ==> TimedNode(cfg, s, s.nodes[n])
  }

  lemma TimesMono(j: nat, k: nat, x: real)
    requires j <= k && x >= 0.0
    ensures Times(j, x) <= Times(k, x)
  {
    MulMono(j as real, k as real, x);
  }

  lemma FailureKeepsLoop(cfg: Config, now: real, loop: Loop)
    requires LoopInv(cfg, now, loop) && now >= loop.due && loop.failures + 1 < cfg.maxFailures
    ensures LoopInv(cfg, now, loop.(failures := loop.failures + 1, due := now + cfg.Interval()))
  {
    TimesNext(loop.failures + 1, cfg.Interval());
  }

  lemma FreshLoop(cfg: Config, renewed: real, now: real)
    requires cfg.Valid() && renewed <= now <= renewed + cfg.callback
    ensures LoopInv(cfg, now, Loop(0, renewed, now, now + cfg.Interval()))
  {
    TimesNext(0, cfg.Interval());
  }

  /** Events at other nodes and expiries leave a node's lease alone. */
  lemma OthersKeepFresh(cfg: Config, s: Cluster, e: Event, n: NodeId, l: LeaseId, t: real)
    requires Inv(s) && Enabled(s, e) && n < |s.nodes| && Owns(s, n, l)
    requires Fresh(cfg, s, l, t) && t <= s.now
    requires e.Expire? || e.Advance? || n != e.n
    ensures Fresh(cfg, Next(cfg, s, e), l, t)
  {
    if !e.Expire? && !e.Advance? {
      assert NodeInv(s, e.n, s.nodes[e.n]);
    }
  }

  lemma OthersKeepTimed(cfg: Config, s: Cluster, e: Event, n: NodeId)
    requires Inv(s) && TimedInv(cfg, s) && Enabled(s, e) && Prompt(cfg, s, e) && n < |s.nodes|
    requires e.Expire? || e.Advance? || n != e.n
    ensures TimedNode(cfg, Next(cfg, s, e), s.nodes[n])
  {
    hide EtcdAfter, NodeAfter, Fresh;
    var nd := s.nodes[n];
    assert NodeInv(s, n, nd) && TimedNode(cfg, s, nd);
    match nd.phase
    case Granted(l, at) => OthersKeepFresh(cfg, s, e, n, l, at);
    case Electing(l, at) => if nd.lease.Some? { OthersKeepFresh(cfg, s, e, n, l, at); }
    case Leading(l, Some(loop)) => if nd.lease.Some? { OthersKeepFresh(cfg, s, e, n, l, loop.renewed); }
    case _ =>
  }

  lemma ActorKeepsTimed(cfg: Config, s: Cluster, e: Event)
    requires cfg.Valid() && Inv(s) && CalmInv(s) && TimedInv(cfg, s) && Enabled(s, e) && !e.CallbackRaise?
    requires !e.Expire? && !e.Advance?
    ensures TimedNode(cfg, Next(cfg, s, e), NodeAfter(cfg, s, s.nodes[e.n], e))
  {
    var nd := s.nodes[e.n];
    assert NodeInv(s, e.n, nd) && TimedNode(cfg, s, nd) && CalmNode(nd);
    hide LoopInv, Config.Interval;
    match e
    case Callback(_) => FreshLoop(cfg, nd.phase.at, s.now);
    case Keepalive(_) =>
      LoopFacts(cfg, s.now, nd.phase.loop.value);
      FreshLoop(cfg, s.now, s.now);
    case KeepaliveFail(_, _) =>
      LoopFacts(cfg, s.now, nd.phase.loop.value);
      if nd.phase.loop.value.failures + 1 < cfg.maxFailures {
        FailureKeepsLoop(cfg, s.now, nd.phase.loop.value);
      }
    case _ =>
  }

  lemma LoopFacts(cfg: Config, now: real, loop: Loop)
    requires LoopInv(cfg, now, loop)
    ensures loop.renewed <= now
  {}

  lemma StepKeepsTimed(cfg: Config, s: Cluster, e: Event)
    requires cfg.Valid() && Inv(s) && CalmInv(s) && TimedInv(cfg, s) && Enabled(s, e) && Prompt(cfg, s, e)
    ensures TimedInv(cfg, Next(cfg, s, e))
  {
    var t := Next(cfg, s, e);
    forall n | 0 <= n < |t.nodes| ensures TimedNode(cfg, t, t.nodes[n]) {
      if e.Expire? || e.Advance? || n != e.n {
        OthersKeepTimed(cfg, s, e, n);
      } else {
        ActorKeepsTimed(cfg, s, e);
      }
    }
  }

  lemma {:induction false} PromptKeeps(cfg: Config, es: seq<Event>)
    requires cfg.Valid() && PromptRun(cfg, es)
    ensures Calm(es) && Inv(Run(cfg, es).value) && CalmInv(Run(cfg, es).value) && TimedInv(cfg, Run(cfg, es).value)
  {
    RunKeepsInv(cfg, es);
    hide Next, Enabled, Inv;
    if es != [] {
      var s := Run(cfg, es[..|es| - 1]).value;
      PromptKeeps(cfg, es[..|es| - 1]);
      StepKeepsCalm(cfg, s, es[|es| - 1]);
      StepKeepsTimed(cfg, s, es[|es| - 1]);
    }
  }

  /** How long after its last renewal a node can still be in the keepalive loop. */
  function Reach(cfg: Config): real {
    cfg.callback + Times(cfg.maxFailures, cfg.Interval())
  }

  ghost predicate InLoop(s: Cluster, n: NodeId) {
    n < |s.nodes| && s.nodes[n].phase.Leading? && s.nodes[n].phase.loop.Some?
  }

  lemma LoopReach(cfg: Config, es: seq<Event>, n: NodeId)
    requires cfg.Valid() && PromptRun(cfg, es) && InLoop(Run(cfg, es).value, n)
    ensures var s := Run(cfg, es).value; s.now <= s.nodes[n].phase.loop.value.renewed + Reach(cfg)
  {
    PromptKeeps(cfg, es);
    var s := Run(cfg, es).value;
    assert TimedNode(cfg, s, s.nodes[n]);
    TimesMono(s.nodes[n].phase.loop.value.failures + 1, cfg.maxFailures, cfg.Interval());
  }

  /** LEADER and not resigned. */
  ghost predicate Leads(s: Cluster, n: NodeId) {
    n < |s.nodes| && s.nodes[n].state.Leader? && s.nodes[n].lease.Some?
  }

  lemma LeaderLives(cfg: Config, es: seq<Event>, n: NodeId)
    requires cfg.Valid() && PromptRun(cfg, es) && Reach(cfg) < cfg.ttl && Leads(Run(cfg, es).value, n)
    ensures Reigns(Run(cfg, es).value, n)
  {
    PromptKeeps(cfg, es);
    var s := Run(cfg, es).value;
    assert TimedNode(cfg, s, s.nodes[n]) && CalmNode(s.nodes[n]);
    TimesMono(0, cfg.maxFailures, cfg.Interval());
    if s.nodes[n].phase.Leading? {
      LoopReach(cfg, es, n);
    }
  }

  lemma SoleLeader(cfg: Config, es: seq<Event>, a: NodeId, b: NodeId)
    requires cfg.Valid() && PromptRun(cfg, es) && Reach(cfg) < cfg.ttl
    requires Leads(Run(cfg, es).value, a) && Leads(Run(cfg, es).value, b)
    ensures a == b
  {
    PromptKeeps(cfg, es);
    LeaderLives(cfg, es, a);
    LeaderLives(cfg, es, b);
    OneLeader(cfg, es, a, b);
  }

  // ---- The latest possible fencing ----

  lemma PromptExtend(cfg: Config, es: seq<Event>, e: Event)
    requires PromptRun(cfg, es) && Enabled(Run(cfg, es).value, e) && Prompt(cfg, Run(cfg, es).value, e)
    ensures PromptRun(cfg, es + [e])
    ensures Run(cfg, es + [e]) == Some(Next(cfg, Run(cfg, es).value, e))
  {
    Extend(cfg, es, e);
    assert (es + [e])[..|es|] == es;
  }

  /** A calm run without waits is prompt. */
  lemma {:induction false} BusyRun(cfg: Config, es: seq<Event>, more: seq<Event>)
    requires PromptRun(cfg, es) && Run(cfg, es + more).Some?
    requires forall i :: 0 <= i < |more| ==> !more[i].Advance? && !more[i].CallbackRaise?
    ensures PromptRun(cfg, es + more)
    decreases |more|
  {
    if more == [] {
      assert es + more == es;
    } else {
      var front, last := more[..|more| - 1], more[|more| - 1];
      assert (es + more)[..|es + more| - 1] == es + front;
      BusyRun(cfg, es, front);
    }
  }

  const KEYED := Some(Entry(0, 0))

  function Failing(cfg: Config, k: nat): Node {
    Node(Leader, Some(0), Some(0),
         Leading(0, Some(Loop(k, 0.0, cfg.callback, cfg.callback + Times(k + 1, cfg.Interval())))))
  }

  /** Node 0 in the keepalive loop after k failures, at a given time. */
  function FailingAt(cfg: Config, k: nat, now: real): Cluster
    requires cfg.nodes >= 2
  {
    Only(cfg, now, Etcd(map[0 := cfg.ttl], KEYED), [0], Failing(cfg, k))
  }

  lemma WaitOnly(cfg: Config, es: seq<Event>, now: real, etcd: Etcd, owners: seq<NodeId>, first: Node, dt: real)
    requires cfg.nodes >= 2 && dt >= 0.0 && PromptRun(cfg, es)
    requires Run(cfg, es) == Some(Only(cfg, now, etcd, owners, first)) && Waits(cfg, first, now + dt)
    ensures PromptRun(cfg, es + [Advance(dt)])
    ensures Run(cfg, es + [Advance(dt)]) == Some(Only(cfg, now + dt, etcd, owners, first))
  {
    AdvanceOnly(cfg, es, now, etcd, owners, first, dt);
    hide PromptRun;
    assert Prompt(cfg, Only(cfg, now, etcd, owners, first), Advance(dt));
    PromptExtend(cfg, es, Advance(dt));
  }

  lemma FirstPrompt(cfg: Config)
    requires Run(cfg, FirstWins()).Some?
    ensures PromptRun(cfg, FirstWins())
  {
    assert [] + FirstWins() == FirstWins();
    BusyRun(cfg, [], FirstWins());
  }

  lemma CallbackStep(cfg: Config)
    requires cfg.Valid() && cfg.nodes >= 2
    ensures var s := Only(cfg, cfg.callback, Etcd(map[0 := cfg.ttl], KEYED), [0], ELECTED);
      Enabled(s, Callback(0)) && Next(cfg, s, Callback(0)) == FailingAt(cfg, 0, cfg.callback)
  {
    OnlyStep(cfg, cfg.callback, Etcd(map[0 := cfg.ttl], KEYED), [0], ELECTED, Callback(0));
    TimesNext(0, cfg.Interval());
    hide Only, Enabled, Next, Times, Config.Interval;
  }

  lemma ElectedWaits(cfg: Config)
    requires cfg.Valid() && cfg.nodes >= 2
    ensures var es := FirstWins() + [Advance(cfg.callback)];
      && PromptRun(cfg, es)
      && Run(cfg, es) == Some(Only(cfg, cfg.callback, Etcd(map[0 := cfg.ttl], KEYED), [0], ELECTED))
  {
    hide Only, PromptRun, FirstWins, Run;
    FirstWinning(cfg);
    FirstPrompt(cfg);
    WaitOnly(cfg, FirstWins(), 0.0, Etcd(map[0 := cfg.ttl], KEYED), [0], ELECTED, cfg.callback);
  }

  lemma LoopEntered(cfg: Config) returns (es: seq<Event>)
    requires cfg.Valid() && cfg.nodes >= 2
    ensures PromptRun(cfg, es) && Run(cfg, es) == Some(FailingAt(cfg, 0, cfg.callback))
  {
    hide Only, Enabled, Next, PromptRun, FirstWins, Run, FailingAt;
    ElectedWaits(cfg);
    CallbackStep(cfg);
    es := FirstWins() + [Advance(cfg.callback)];
    PromptExtend(cfg, es, Callback(0));
    es := es + [Callback(0)];
  }

  lemma FailureStep(cfg: Config, k: nat)
    requires cfg.Valid() && cfg.nodes >= 2 && k + 1 < cfg.maxFailures
    ensures var now := cfg.callback + Times(k + 1, cfg.Interval());
      && Enabled(FailingAt(cfg, k, now), KeepaliveFail(0, false))
      && Next(cfg, FailingAt(cfg, k, now), KeepaliveFail(0, false)) == FailingAt(cfg, k + 1, now)
  {
    var now := cfg.callback + Times(k + 1, cfg.Interval());
    OnlyStep(cfg, now, Etcd(map[0 := cfg.ttl], KEYED), [0], Failing(cfg, k), KeepaliveFail(0, false));
    TimesNext(k + 1, cfg.Interval());
    hide Only, Enabled, Next, Times, Config.Interval;
  }

  lemma FailOnce(cfg: Config, es: seq<Event>, k: nat)
    requires cfg.Valid() && cfg.nodes >= 2 && k + 1 < cfg.maxFailures && PromptRun(cfg, es)
    requires Run(cfg, es) == Some(FailingAt(cfg, k, cfg.callback + Times(k + 1, cfg.Interval())))
    ensures PromptRun(cfg, es + [KeepaliveFail(0, false)])
    ensures Run(cfg, es + [KeepaliveFail(0, false)]) ==
      Some(FailingAt(cfg, k + 1, cfg.callback + Times(k + 1, cfg.Interval())))
  {
    FailureStep(cfg, k);
    hide FailingAt, Enabled, Next, PromptRun, Times, Run, Config.Interval;
    PromptExtend(cfg, es, KeepaliveFail(0, false));
  }

  lemma WaitForNext(cfg: Config, es: seq<Event>, k: nat)
    requires cfg.Valid() && cfg.nodes >= 2 && k < cfg.maxFailures && PromptRun(cfg, es)
    requires Run(cfg, es) == Some(FailingAt(cfg, k, cfg.callback + Times(k, cfg.Interval())))
    ensures PromptRun(cfg, es + [Advance(cfg.Interval())])
    ensures Run(cfg, es + [Advance(cfg.Interval())]) ==
      Some(FailingAt(cfg, k, cfg.callback + Times(k + 1, cfg.Interval())))
  {
    TimesNext(k, cfg.Interval());
    IntervalPositive(cfg);
    hide Only, Times, PromptRun, Run, Config.Interval;
    WaitOnly(cfg, es, cfg.callback + Times(k, cfg.Interval()), Etcd(map[0 := cfg.ttl], KEYED), [0],
             Failing(cfg, k), cfg.Interval());
  }

  lemma IntervalPositive(cfg: Config)
    ensures cfg.Interval() >= 1.0
  {}

  /** A prompt run after which node 0 is in its loop with k failures, the given number of intervals after it began. */
  ghost predicate Fails(cfg: Config, es: seq<Event>, k: nat, intervals: nat)
    requires cfg.nodes >= 2
  {
    PromptRun(cfg, es) && Run(cfg, es) == Some(FailingAt(cfg, k, cfg.callback + Times(intervals, cfg.Interval())))
  }

  lemma LoopFails(cfg: Config) returns (es: seq<Event>)
    requires cfg.Valid() && cfg.nodes >= 2
    ensures Fails(cfg, es, 0, 0)
  {
    TimesNext(0, cfg.Interval());
    hide PromptRun, Run, FailingAt, Times;
    es := LoopEntered(cfg);
  }

  lemma FailsOnce(cfg: Config, es: seq<Event>, k: nat)
    requires cfg.Valid() && cfg.nodes >= 2 && k + 1 < cfg.maxFailures && Fails(cfg, es, k, k + 1)
    ensures Fails(cfg, es + [KeepaliveFail(0, false)], k + 1, k + 1)
  {
    hide PromptRun, Run, FailingAt, Times, Config.Interval;
    FailOnce(cfg, es, k);
  }

  lemma FailsWaiting(cfg: Config, es: seq<Event>, k: nat)
    requires cfg.Valid() && cfg.nodes >= 2 && k < cfg.maxFailures && Fails(cfg, es, k, k)
    ensures Fails(cfg, es + [Advance(cfg.Interval())], k, k + 1)
  {
    hide PromptRun, Run, FailingAt, Times, Config.Interval;
    WaitForNext(cfg, es, k);
  }

  /** Every keepalive fails, and the node waits for the next. */
  lemma {:induction false} FailingRun(cfg: Config, k: nat) returns (es: seq<Event>)
    requires cfg.Valid() && cfg.nodes >= 2 && k < cfg.maxFailures
    ensures Fails(cfg, es, k, k + 1)
  {
    hide Fails, Config.Interval;
    if k == 0 {
      es := LoopFails(cfg);
    } else {
      es := FailingRun(cfg, k - 1);
      FailsOnce(cfg, es, k - 1);
      es := es + [KeepaliveFail(0, false)];
    }
    FailsWaiting(cfg, es, k);
    es := es + [Advance(cfg.Interval())];
  }

  /** In every prompt run a node still in its keepalive loop is within the TTL of its last renewal. */
  ghost predicate FencedInTime(cfg: Config) {
    forall es, n: NodeId | PromptRun(cfg, es) && InLoop(Run(cfg, es).value, n) ::
      Run(cfg, es).value.now <= Run(cfg, es).value.nodes[n].phase.loop.value.renewed + cfg.ttl
  }

  /** A failing node leaves LEADER by the expiry of its lease, in every prompt run, exactly when the bound on
      `on_elected` plus `max_keepalive_failures` intervals is at most the TTL. */
  lemma FencedInTimeIff(cfg: Config)
    requires cfg.Valid() && cfg.nodes >= 2
    ensures FencedInTime(cfg) <==> Reach(cfg) <= cfg.ttl
  {
    if Reach(cfg) <= cfg.ttl {
      forall es, n: NodeId | PromptRun(cfg, es) && InLoop(Run(cfg, es).value, n)
        ensures Run(cfg, es).value.now <= Run(cfg, es).value.nodes[n].phase.loop.value.renewed + cfg.ttl
      {
        LoopReach(cfg, es, n);
      }
    } else {
      var es := FailingRun(cfg, cfg.maxFailures - 1);
      assert InLoop(Run(cfg, es).value, 0);
    }
  }

  /** In every prompt run at most one node is LEADER without having resigned. */
  ghost predicate AlwaysSole(cfg: Config) {
    forall es, a: NodeId, b: NodeId | PromptRun(cfg, es) && Leads(Run(cfg, es).value, a) && Leads(Run(cfg, es).value, b)
      :: a == b
  }

  lemma PairLeads(cfg: Config, now: real, etcd: Etcd, owners: seq<NodeId>, first: Node, second: Node)
    requires cfg.nodes >= 2
    requires first.state.Leader? && first.lease.Some? && second.state.Leader? && second.lease.Some?
    ensures Leads(Pair(cfg, now, etcd, owners, first, second), 0)
    ensures Leads(Pair(cfg, now, etcd, owners, first, second), 1)
  {}

  lemma Overtaken(cfg: Config, es: seq<Event>, now: real, first: Node) returns (more: seq<Event>)
    requires cfg.nodes >= 2 && cfg.ttl <= now && PromptRun(cfg, es)
    requires Run(cfg, es) == Some(Only(cfg, now, Etcd(map[0 := cfg.ttl], KEYED), [0], first))
    requires first.state.Leader? && first.lease.Some?
    ensures PromptRun(cfg, es + more)
    ensures Leads(Run(cfg, es + more).value, 0) && Leads(Run(cfg, es + more).value, 1)
  {
    hide PromptRun, Run, Only, Pair, Leads;
    var s: Cluster;
    more, s := SecondWins(cfg, es, now, cfg.ttl, first);
    BusyRun(cfg, es, more);
    PairLeads(cfg, now, Etcd(map[1 := now + cfg.ttl], Some(Entry(1, 1))), [0, 1], first,
              Node(Leader, Some(1), Some(1), Electing(1, now)));
  }

  lemma TwoLeaders(cfg: Config) returns (es: seq<Event>)
    requires cfg.Valid() && cfg.nodes >= 2 && Reach(cfg) >= cfg.ttl
    ensures PromptRun(cfg, es) && Leads(Run(cfg, es).value, 0) && Leads(Run(cfg, es).value, 1)
  {
    hide Times, Config.Interval, PromptRun, Run, Only, Leads;
    var k := cfg.maxFailures - 1;
    es := FailingRun(cfg, k);
    var more := Overtaken(cfg, es, cfg.callback + Times(k + 1, cfg.Interval()), Failing(cfg, k));
    es := es + more;
  }

  /** Two leaders at once are ruled out, in prompt runs, exactly when fencing comes before the expiry. */
  lemma AlwaysSoleIff(cfg: Config)
    requires cfg.Valid() && cfg.nodes >= 2
    ensures AlwaysSole(cfg) <==> Reach(cfg) < cfg.ttl
  {
    if Reach(cfg) < cfg.ttl {
      forall es, a: NodeId, b: NodeId | PromptRun(cfg, es) && Leads(Run(cfg, es).value, a)
          && Leads(Run(cfg, es).value, b)
        ensures a == b
      {
        SoleLeader(cfg, es, a, b);
      }
    } else {
      var es := TwoLeaders(cfg);
    }
  }

  /** The defaults, a TTL of 10 and 3 failures, fence at the very moment of expiry: in time only if `on_elected`
      takes no time, and never early enough to rule out a second leader. */
  lemma DefaultsOnTheEdge(cfg: Config)
    requires cfg.Valid() && cfg.nodes >= 2 && cfg.ttl == 10.0 && cfg.maxFailures == 3
    ensures FencedInTime(cfg) <==> cfg.callback == 0.0
    ensures !AlwaysSole(cfg)
  {
    assert Reach(cfg) == cfg.callback + 10.0;
    FencedInTimeIff(cfg);
    AlwaysSoleIff(cfg);
  }
}
