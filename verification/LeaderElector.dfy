/** The elector object: each method is one stretch between two awaits, tied to the step the runs are made of. */
module LeaderElection {
  import opened Numeric
  import opened ElectionModel
  import opened ElectionSafety

  class LeaderElector {
    const config: Config
    const instance: NodeId
    var state: ElectionState
    var lease: Option<LeaseId>
    var currentLeader: Option<NodeId>
    /** Which awaits the campaign and keepalive tasks are at. */
    var phase: Phase

    function View(): Node
      reads this
    {
      Node(state, lease, currentLeader, phase)
    }

    constructor (config: Config, instance: NodeId)
      ensures this.config == config && this.instance == instance
      ensures View() == Node(Stopped, None, None, Idle)
    {
      this.config, this.instance := config, instance;
      state, lease, currentLeader, phase := Stopped, None, None, Idle;
    }

    method OnStart()
      modifies this
      ensures View() == Started(old(View()))
    {
      state := Candidate;
      phase := Trying;
    }

    // ---- `_try_campaign` ----

    method LeaseGranted(l: LeaseId, now: real)
      modifies this
      ensures View() == AfterGrant(old(View()), l, now)
    {
      lease := Some(l);
      phase := Granted(l, now);
    }

    method TransactionDone(success: bool)
      requires phase.Granted?
      modifies this
      ensures View() == if success then AfterWin(old(View()), instance) else AfterLose(old(View()))
    {
      if success {
        state := Leader;
        currentLeader := Some(instance);
        phase := Electing(phase.l, phase.at);
      } else {
        phase := Reading(phase.l);
      }
    }

    method LeaderRead(current: Option<NodeId>)
      requires phase.Reading?
      modifies this
      ensures View() == AfterRead(old(View()), current)
    {
      if current.Some? {
        currentLeader := current;
      }
      state := Follower;
      phase := Dropping(phase.l);
    }

    method UnusedLeaseRevoked()
      modifies this
      ensures View() == AfterDrop(old(View()))
    {
      lease := None;
      phase := Watching;
    }

    method CampaignRaised()
      modifies this
      ensures View() == AfterRaise(old(View()))
    {
      phase := Trying;
    }

    method ElectedCallbackReturned(now: real)
      requires phase.Electing?
      modifies this
      ensures View() == AfterCallback(old(View()), config, now)
    {
      var interval := if config.ttl / 3.0 < 1.0 then 1.0 else config.ttl / 3.0;
      phase := Leading(phase.l, Some(Loop(0, phase.at, now, now + interval)));
    }

    /** One poll of `_wait_for_leader_loss`. */
    method LeaderPolled(keyed: bool)
      modifies this
      ensures View() == AfterPoll(old(View()), keyed)
    {
      if !keyed {
        state := Candidate;
        phase := Trying;
      }
    }

    // ---- `_keepalive_loop` ----

    method KeepaliveDone(ok: bool, now: real)
      requires phase.Leading? && phase.loop.Some?
      modifies this
      ensures View() ==
        if ok then AfterKeepalive(old(View()), config, now) else AfterFailure(old(View()), config, now)
    {
      var interval := if config.ttl / 3.0 < 1.0 then 1.0 else config.ttl / 3.0;
      var loop := phase.loop.value;
      if ok {
        phase := Leading(phase.l, Some(Loop(0, now, now, now + interval)));
        return;
      }
      var failures := loop.failures + 1;
      if failures >= config.maxFailures {
        HandleDemotion();
        phase := Leading(phase.l, None);
      } else {
        phase := Leading(phase.l, Some(Loop(failures, loop.renewed, loop.base, now + interval)));
      }
    }

    method HandleDemotion()
      modifies this
      ensures View() == Demoted(old(View()))
    {
      if state != Leader {
        return;
      }
      state := Follower;
      currentLeader := None;
    }

    // ---- `resign` and `stop` ----

    method LeaseRevoked()
      modifies this
      ensures View() == AfterResign(old(View()))
    {
      lease := None;
    }

    method OnStopped()
      modifies this
      ensures View() == AfterStop(old(View()))
    {
      state := Stopped;
      phase := Idle;
    }

    // ---- All of it ----

    /** Whichever stretch of code the event stands for, with what etcd and the clock show it. */
    method On(e: Event, s: Cluster)
      requires !e.Expire? && !e.Advance? && e.n == instance && EnabledAt(s, View(), e)
      modifies this
      ensures View() == NodeAfter(config, s, old(View()), e)
    {
      match e
      case Start(_) => OnStart();
      case Grant(_) => LeaseGranted(|s.owners|, s.now);
      case GrantLost(_) =>
      case Raise(_) => CampaignRaised();
      case Win(_) => TransactionDone(true);
      case WinLost(_) => CampaignRaised();
      case Lose(_) => TransactionDone(false);
      case Read(_) => LeaderRead(if s.etcd.key.Some? then Some(s.etcd.key.value.value) else None);
      case Drop(_, _) => UnusedLeaseRevoked();
      case Poll(_) => LeaderPolled(s.etcd.key.Some?);
      case Callback(_) => ElectedCallbackReturned(s.now);
      case CallbackRaise(_) => CampaignRaised();
      case Keepalive(_) => KeepaliveDone(true, s.now);
      case KeepaliveFail(_, _) => KeepaliveDone(false, s.now);
      case Resign(_, _) => LeaseRevoked();
      case Stop(_) => OnStopped();
    }
  }

  /** Elector objects over one etcd. */
  class ElectionCluster {
    const config: Config
    const electors: seq<LeaderElector>
    var now: real
    var etcd: Etcd
    /** To which node each lease was granted. */
    var owners: seq<NodeId>

    function Nodes(): seq<Node>
      reads electors
    {
      seq(|electors|, i requires 0 <= i < |electors| reads electors => electors[i].View())
    }

    function View(): Cluster
      reads this, electors
    {
      Cluster(now, etcd, owners, Nodes())
    }

    ghost predicate Valid() {
      && (forall i :: 0 <= i < |electors| ==> electors[i].config == config && electors[i].instance == i)
      && (forall i, j :: 0 <= i < j < |electors| ==> electors[i] != electors[j])
    }

    constructor (config: Config)
      ensures Valid() && this.config == config && View() == Initial(config) && fresh(electors)
    {
      var all: seq<LeaderElector> := [];
      for i := 0 to config.nodes
        invariant |all| == i && fresh(all)
        invariant forall k :: 0 <= k < i ==> all[k].config == config && all[k].instance == k
        invariant forall k :: 0 <= k < i ==> all[k].View() == Node(Stopped, None, None, Idle)
        invariant forall j, k :: 0 <= j < k < i ==> all[j] != all[k]
      {
        var elector := new LeaderElector(config, i);
        all := all + [elector];
      }
      this.config, electors := config, all;
      now, etcd, owners := 0.0, Etcd(map[], None), [];
    }

    method Apply(e: Event)
      requires Valid() && Enabled(View(), e)
      modifies this, electors
      ensures View() == Next(config, old(View()), e)
    {
      hide EnabledAt, NodeAfter, EtcdAfter, Nodes;
      match e
      case Expire(l) => etcd := Without(etcd, l);
      case Advance(dt) => now := now + dt;
      case _ => ApplyAt(e);
    }

    /** An event at one elector: the others do not notice. */
    method ApplyAt(e: Event)
      requires Valid() && !e.Expire? && !e.Advance? && Enabled(View(), e)
      modifies this, electors
      ensures View() == Next(config, old(View()), e)
    {
      hide EnabledAt, NodeAfter, EtcdAfter;
      var s := View();
      electors[e.n].On(e, s);
      assert Nodes() == s.nodes[e.n := NodeAfter(config, s, s.nodes[e.n], e)];
      etcd := EtcdAfter(config, s, s.nodes[e.n], e);
      if e.Grant? || e.GrantLost? {
        owners := owners + [e.n];
      }
    }

    /** Any run on real objects: they end in the state of the model's run, and at most one of them is a LEADER whose
        winning lease is live. */
    method Live(es: seq<Event>)
      requires Valid() && View() == Initial(config) && Run(config, es).Some?
      modifies this, electors
      ensures View() == Run(config, es).value
      ensures forall a, b :: Rules(View(), a) && Rules(View(), b) ==> a == b
    {
      var i := 0;
      while i < |es|
        invariant i <= |es| && Run(config, es[..i]) == Some(View())
      {
        RunPrefix(config, es, i + 1);
        assert es[..i + 1][..i] == es[..i];
        Apply(es[i]);
        i := i + 1;
      }
      assert es[..i] == es;
      forall a, b | Rules(View(), a) && Rules(View(), b) ensures a == b {
        OneRuler(config, es, a, b);
      }
    }
  }

  lemma {:induction false} RunPrefix(cfg: Config, es: seq<Event>, n: nat)
    requires n <= |es| && Run(cfg, es).Some?
    ensures Run(cfg, es[..n]).Some?
  {
    if n < |es| {
      RunPrefix(cfg, es[..|es| - 1], n);
      assert es[..|es| - 1][..n] == es[..n];
    } else {
      assert es[..n] == es;
    }
  }
}
