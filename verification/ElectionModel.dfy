/** Leader election over an etcd with leases. One event is one stretch of an elector's code between two awaits,
    together with the effect its call has on etcd; events of different nodes interleave freely. */
module ElectionModel {
  import opened Numeric

  type NodeId = nat
  type LeaseId = nat

  /** `callback` bounds the time `on_elected` takes; only timed runs use it. */
  datatype Config = Config(ttl: real, maxFailures: nat, nodes: nat, callback: real) {
    ghost predicate Valid() {
      ttl > 0.0 && maxFailures > 0 && callback >= 0.0
    }

    function Interval(): real {
      Max(ttl / 3.0, 1.0)
    }
  }

  datatype ElectionState = Candidate | Leader | Follower | Stopped

  /** The keepalive loop: failures in a row, when the lease was last known to be renewed, when the current
      row of waits began, and when the current wait ends. */
  datatype Loop = Loop(failures: nat, renewed: real, base: real, due: real)

  /** Where a node's coroutines are. `loop` is None once the keepalive loop has fenced the node. */
  datatype Phase =
    | Idle
    | Trying
    | Granted(l: LeaseId, at: real)
    | Electing(l: LeaseId, at: real)
    | Leading(l: LeaseId, loop: Option<Loop>)
    | Reading(l: LeaseId)
    | Dropping(l: LeaseId)
    | Watching

  datatype Node = Node(state: ElectionState, lease: Option<LeaseId>, leader: Option<NodeId>, phase: Phase)

  datatype Entry = Entry(value: NodeId, l: LeaseId)

  /** The leases not yet expired or revoked, with their expiry, and the election key. */
  datatype Etcd = Etcd(leases: map<LeaseId, real>, key: Option<Entry>)

  /** `owners[l]` is the node lease l was granted to; its length is the next fresh lease. */
  datatype Cluster = Cluster(now: real, etcd: Etcd, owners: seq<NodeId>, nodes: seq<Node>)

  // ---- etcd ----

  /** A lease ends, by expiry or revocation, and takes the key with it if attached. */
  function Without(e: Etcd, l: LeaseId): Etcd {
    Etcd(e.leases - {l}, if e.key.Some? && e.key.value.l == l then None else e.key)
  }

  function Renewed(e: Etcd, l: LeaseId, expiry: real): Etcd {
    if l in e.leases then e.(leases := e.leases[l := expiry]) else e
  }

  // ---- What one stretch of code does to the node itself ----

  function Started(nd: Node): Node {
    nd.(state := Candidate, phase := Trying)
  }

  function AfterGrant(nd: Node, l: LeaseId, now: real): Node {
    nd.(lease := Some(l), phase := Granted(l, now))
  }

  function AfterWin(nd: Node, id: NodeId): Node
    requires nd.phase.Granted?
  {
    nd.(state := Leader, leader := Some(id), phase := Electing(nd.phase.l, nd.phase.at))
  }

  function AfterLose(nd: Node): Node
    requires nd.phase.Granted?
  {
    nd.(phase := Reading(nd.phase.l))
  }

  /** The lost election's key is read; it may be gone by now, and then the last known leader stays. */
  function AfterRead(nd: Node, current: Option<NodeId>): Node
    requires nd.phase.Reading?
  {
    nd.(state := Follower, leader := if current.Some? then current else nd.leader, phase := Dropping(nd.phase.l))
  }

  function AfterDrop(nd: Node): Node {
    nd.(lease := None, phase := Watching)
  }

  /** A call raised out of `_try_campaign`: the campaign loop tries again, the state stays what it was. */
  function AfterRaise(nd: Node): Node {
    nd.(phase := Trying)
  }

  function AfterPoll(nd: Node, keyed: bool): Node {
    if keyed then nd else nd.(state := Candidate, phase := Trying)
  }

  function AfterCallback(nd: Node, cfg: Config, now: real): Node
    requires nd.phase.Electing?
  {
    nd.(phase := Leading(nd.phase.l, Some(Loop(0, nd.phase.at, now, now + cfg.Interval()))))
  }

  function AfterKeepalive(nd: Node, cfg: Config, now: real): Node
    requires nd.phase.Leading?
  {
    nd.(phase := Leading(nd.phase.l, Some(Loop(0, now, now, now + cfg.Interval()))))
  }

  function Demoted(nd: Node): Node {
    if nd.state.Leader? then nd.(state := Follower, leader := None) else nd
  }

  function AfterFailure(nd: Node, cfg: Config, now: real): Node
    requires nd.phase.Leading? && nd.phase.loop.Some?
  {
    var loop := nd.phase.loop.value;
    if loop.failures + 1 >= cfg.maxFailures then Demoted(nd.(phase := Leading(nd.phase.l, None)))
    else nd.(phase := Leading(nd.phase.l, Some(loop.(failures := loop.failures + 1, due := now + cfg.Interval()))))
  }

  /** `resign` gives up the lease but stays LEADER. */
  function AfterResign(nd: Node): Node {
    nd.(lease := None)
  }

  function AfterStop(nd: Node): Node {
    nd.(state := Stopped, phase := Idle)
  }

  // ---- Runs ----

  /** `applied` tells whether etcd carried out a call that raised, or a revocation. */
  datatype Event =
    | Start(n: NodeId)
    | Grant(n: NodeId)
    | GrantLost(n: NodeId)
    | Raise(n: NodeId)
    | Win(n: NodeId)
    | WinLost(n: NodeId)
    | Lose(n: NodeId)
    | Read(n: NodeId)
    | Drop(n: NodeId, applied: bool)
    | Poll(n: NodeId)
    | Callback(n: NodeId)
    | CallbackRaise(n: NodeId)
    | Keepalive(n: NodeId)
    | KeepaliveFail(n: NodeId, applied: bool)
    | Resign(n: NodeId, applied: bool)
    | Stop(n: NodeId)
    | Expire(lease: LeaseId)
    | Advance(dt: real)

  predicate Enabled(s: Cluster, e: Event) {
    match e
    case Expire(l) => l in s.etcd.leases && s.now >= s.etcd.leases[l]
    case Advance(dt) => dt >= 0.0
    case _ => e.n < |s.nodes| && EnabledAt(s, s.nodes[e.n], e)
  }

  predicate EnabledAt(s: Cluster, nd: Node, e: Event)
    requires !e.Expire? && !e.Advance?
  {
    match e
    case Start(_) => nd.phase.Idle?
    case Grant(_) => nd.phase.Trying?
    case GrantLost(_) => nd.phase.Trying?
    case Raise(_) => nd.phase.Granted? || nd.phase.Reading?
    case Win(_) => nd.phase.Granted? && s.etcd.key.None? && nd.phase.l in s.etcd.leases
    case WinLost(_) => nd.phase.Granted? && s.etcd.key.None? && nd.phase.l in s.etcd.leases
    case Lose(_) => nd.phase.Granted? && s.etcd.key.Some?
    case Read(_) => nd.phase.Reading?
    case Drop(_, _) => nd.phase.Dropping?
    case Poll(_) => nd.phase.Watching?
    case Callback(_) => nd.phase.Electing?
    case CallbackRaise(_) => nd.phase.Electing?
    case Keepalive(_) =>
      nd.phase.Leading? && nd.phase.loop.Some? && s.now >= nd.phase.loop.value.due && nd.phase.l in s.etcd.leases
    case KeepaliveFail(_, _) =>
      nd.phase.Leading? && nd.phase.loop.Some? && s.now >= nd.phase.loop.value.due
    case Resign(_, _) => nd.state.Leader?
    case Stop(_) => !nd.phase.Idle?
  }

  /** The new state of the node an event happens at. */
  function NodeAfter(cfg: Config, s: Cluster, nd: Node, e: Event): Node
    requires !e.Expire? && !e.Advance? && EnabledAt(s, nd, e)
  {
    match e
    case Start(_) => Started(nd)
    case Grant(_) => AfterGrant(nd, |s.owners|, s.now)
    case GrantLost(_) => nd
    case Raise(_) => AfterRaise(nd)
    case Win(n) => AfterWin(nd, n)
    case WinLost(_) => AfterRaise(nd)
    case Lose(_) => AfterLose(nd)
    case Read(_) => AfterRead(nd, if s.etcd.key.Some? then Some(s.etcd.key.value.value) else None)
    case Drop(_, _) => AfterDrop(nd)
    case Poll(_) => AfterPoll(nd, s.etcd.key.Some?)
    case Callback(_) => AfterCallback(nd, cfg, s.now)
    case CallbackRaise(_) => AfterRaise(nd)
    case Keepalive(_) => AfterKeepalive(nd, cfg, s.now)
    case KeepaliveFail(_, _) => AfterFailure(nd, cfg, s.now)
    case Resign(_, _) => AfterResign(nd)
    case Stop(_) => AfterStop(nd)
  }

  /** What the event does to etcd. */
  function EtcdAfter(cfg: Config, s: Cluster, nd: Node, e: Event): Etcd
    requires !e.Expire? && !e.Advance? && EnabledAt(s, nd, e)
  {
    match e
    case Grant(_) => s.etcd.(leases := s.etcd.leases[|s.owners| := s.now + cfg.ttl])
    case GrantLost(_) => s.etcd.(leases := s.etcd.leases[|s.owners| := s.now + cfg.ttl])
    case Win(n) => s.etcd.(key := Some(Entry(n, nd.phase.l)))
    case WinLost(n) => s.etcd.(key := Some(Entry(n, nd.phase.l)))
    case Drop(_, applied) => if applied then Without(s.etcd, nd.phase.l) else s.etcd
    case Keepalive(_) => Renewed(s.etcd, nd.phase.l, s.now + cfg.ttl)
    case KeepaliveFail(_, applied) => if applied then Renewed(s.etcd, nd.phase.l, s.now + cfg.ttl) else s.etcd
    case Resign(_, applied) => if applied && nd.lease.Some? then Without(s.etcd, nd.lease.value) else s.etcd
    case _ => s.etcd
  }

  function Next(cfg: Config, s: Cluster, e: Event): Cluster
    requires Enabled(s, e)
  {
    match e
    case Expire(l) => s.(etcd := Without(s.etcd, l))
    case Advance(dt) => s.(now := s.now + dt)
    case _ =>
      var nd := s.nodes[e.n];
      Cluster(s.now, EtcdAfter(cfg, s, nd, e), if e.Grant? || e.GrantLost? then s.owners + [e.n] else s.owners,
              s.nodes[e.n := NodeAfter(cfg, s, nd, e)])
  }

  function Initial(cfg: Config): Cluster {
    Cluster(0.0, Etcd(map[], None), [], seq(cfg.nodes, i => Node(Stopped, None, None, Idle)))
  }

  /** The state a run ends in, if each of its events could happen. */
  function Run(cfg: Config, es: seq<Event>): Option<Cluster> {
    if es == [] then Some(Initial(cfg))
    else
      var before := Run(cfg, es[..|es| - 1]);
      if before.Some? && Enabled(before.value, es[|es| - 1]) then Some(Next(cfg, before.value, es[|es| - 1]))
      else None
  }
}
