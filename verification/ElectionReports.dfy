/** Which leader a node reports: the one it was last told of. */
module ElectionReports {
  import opened Numeric
  import opened ElectionModel
  import opened ElectionSafety

  function Last(es: seq<Event>): Event
    requires es != []
  {
    es[|es| - 1]
  }

  function Init(es: seq<Event>): seq<Event>
    requires es != []
  {
    es[..|es| - 1]
  }

  predicate At(e: Event, n: NodeId) {
    !e.Expire? && !e.Advance? && e.n == n
  }

  /** The last event is a failed keepalive that makes the node, a leader, a follower. */
  ghost predicate Demotes(cfg: Config, es: seq<Event>, n: NodeId)
    requires es != [] && Run(cfg, es).Some?
  {
    var before, after := Run(cfg, Init(es)).value.nodes, Run(cfg, es).value.nodes;
    && At(Last(es), n) && Last(es).KeepaliveFail?
    && n < |before| && n < |after| && before[n].state.Leader? && after[n].state.Follower?
  }

  /** Itself when it wins, the key's value when it reads one, and nothing once it is demoted. */
  ghost function Told(cfg: Config, es: seq<Event>, n: NodeId): Option<NodeId>
    requires Run(cfg, es).Some?
    decreases |es|
  {
    if es == [] then None
    else
      var key := Run(cfg, Init(es)).value.etcd.key;
      if At(Last(es), n) && Last(es).Win? then Some(n)
      else if At(Last(es), n) && Last(es).Read? && key.Some? then Some(key.value.value)
      else if Demotes(cfg, es, n) then None
      else Told(cfg, Init(es), n)
  }

  lemma LastStep(cfg: Config, es: seq<Event>)
    requires es != [] && Run(cfg, es).Some?
    ensures Run(cfg, Init(es)).Some?
    ensures var s := Run(cfg, Init(es)).value;
      Enabled(s, Last(es)) && Run(cfg, es).value == Next(cfg, s, Last(es))
  {
    hide Next, Enabled;
  }

  lemma {:induction false} SameNodes(cfg: Config, es: seq<Event>)
    requires Run(cfg, es).Some?
    ensures |Run(cfg, es).value.nodes| == cfg.nodes
    decreases |es|
  {
    if es != [] {
      LastStep(cfg, es);
      SameNodes(cfg, Init(es));
      hide NodeAfter, EtcdAfter, Enabled, Run;
    }
  }

  /** What one event does to what a node reports. */
  lemma StepReports(cfg: Config, s: Cluster, e: Event, n: NodeId)
    requires Enabled(s, e) && n < |s.nodes|
    ensures var t := Next(cfg, s, e);
      && n < |t.nodes|
      && t.nodes[n].leader ==
           if At(e, n) && e.Win? then Some(n)
           else if At(e, n) && e.Read? && s.etcd.key.Some? then Some(s.etcd.key.value.value)
           else if At(e, n) && e.KeepaliveFail? && s.nodes[n].state.Leader? && t.nodes[n].state.Follower? then None
           else s.nodes[n].leader
  {}

  /** On every run a node reports the leader it was last told of. */
  lemma {:induction false} ReportsLastTold(cfg: Config, es: seq<Event>, n: NodeId)
    requires Run(cfg, es).Some? && n < cfg.nodes
    ensures n < |Run(cfg, es).value.nodes| && Run(cfg, es).value.nodes[n].leader == Told(cfg, es, n)
    decreases |es|
  {
    SameNodes(cfg, es);
    if es != [] {
      LastStep(cfg, es);
      ReportsLastTold(cfg, Init(es), n);
      hide Run, Next, Enabled;
      StepReports(cfg, Run(cfg, Init(es)).value, Last(es), n);
    }
  }

  // ---- Only winners are reported ----

  ghost predicate Won(es: seq<Event>, v: NodeId) {
    Win(v) in es || WinLost(v) in es
  }

  ghost predicate OnlyWinners(es: seq<Event>, s: Cluster) {
    && (s.etcd.key.Some? ==> Won(es, s.etcd.key.value.value))
    && (forall n :: 0 <= n < |s.nodes| && s.nodes[n].leader.Some? ==> Won(es, s.nodes[n].leader.value))
  }

  lemma KeyStep(cfg: Config, s: Cluster, e: Event)
    requires Enabled(s, e)
    ensures var key := Next(cfg, s, e).etcd.key;
      key.Some? ==> (s.etcd.key.Some? && key.value.value == s.etcd.key.value.value)
                    || e == Win(key.value.value) || e == WinLost(key.value.value)
  {}

  /** The key, and every leader a node reports, name a node that has won an election in the run. */
  lemma {:induction false} ReportedWon(cfg: Config, es: seq<Event>)
    requires Run(cfg, es).Some?
    ensures OnlyWinners(es, Run(cfg, es).value)
    decreases |es|
  {
    if es != [] {
      LastStep(cfg, es);
      ReportedWon(cfg, Init(es));
      var s, e := Run(cfg, Init(es)).value, Last(es);
      KeyStep(cfg, s, e);
      SameNodes(cfg, es);
      SameNodes(cfg, Init(es));
      hide Run, Next, Enabled;
      assert forall x :: x in Init(es) ==> x in es;
      assert e in es;
      forall n | 0 <= n < |Run(cfg, es).value.nodes| && Run(cfg, es).value.nodes[n].leader.Some?
        ensures Won(es, Run(cfg, es).value.nodes[n].leader.value)
      {
        StepReports(cfg, s, e, n);
      }
    }
  }
}
