/** Device power reaching the meters: links with losses, and everything unlinked on the default meter. */
module PowerBalance {
  import opened Numeric
  import opened Aggregation
  import opened AggregationRules

  datatype DeviceId = DeviceId(name: string)

  datatype Kind = Pcs | Solar | Load | Generator

  /** A device with the power it currently shows. */
  datatype Device = Device(kind: Kind, id: DeviceId, p: real, q: real)

  datatype Link = Link(source: DeviceId, meter: MeterId, loss: real)

  /** The simulator's four device lists. */
  datatype Fleet = Fleet(pcs: seq<Device>, solar: seq<Device>, loads: seq<Device>, generators: seq<Device>)
  {
    function All(): seq<Device> {
      pcs + solar + loads + generators
    }

    ghost predicate Sorted() {
      && (forall d :: d in pcs ==> d.kind == Pcs)
      && (forall d :: d in solar ==> d.kind == Solar)
      && (forall d :: d in loads ==> d.kind == Load)
      && (forall d :: d in generators ==> d.kind == Generator)
    }
  }

  function Zero(): Power {
    Power(0.0, 0.0)
  }

  function Minus(a: Power, b: Power): Power {
    Power(a.p - b.p, a.q - b.q)
  }

  function Scale(k: real, a: Power): Power {
    Power(k * a.p, k * a.q)
  }

  /** What a device adds to a meter: loads count up, sources count down, solar has no reactive part. */
  function Contribution(d: Device): Power {
    match d.kind
    case Load => Power(d.p, d.q)
    case Pcs => Power(-d.p, -d.q)
    case Solar => Power(-d.p, 0.0)
    case Generator => Power(-d.p, -d.q)
  }

  function Find(ds: seq<Device>, id: DeviceId): Option<Device> {
    if ds == [] then None else if ds[0].id == id then Some(ds[0]) else Find(ds[1..], id)
  }

  /** The contribution a link carries before its loss; nothing when the device is unknown. */
  function Carried(fleet: Fleet, link: Link): Power {
    var d := Find(fleet.All(), link.source);
    if d.Some? then Contribution(d.value) else Zero()
  }

  // ---- Steps 6 and 7 ----

  function ZeroReadings(meters: set<MeterId>): map<MeterId, Power> {
    map m | m in meters :: Zero()
  }

  function Added(readings: map<MeterId, Power>, m: MeterId, x: Power): map<MeterId, Power>
    requires m in readings
  {
    readings[m := Plus(readings[m], x)]
  }

  function Delivered(fleet: Fleet, link: Link): Power {
    Scale(1.0 - link.loss, Carried(fleet, link))
  }

  function WithLinks(fleet: Fleet, links: seq<Link>, readings: map<MeterId, Power>): (r: map<MeterId, Power>)
    requires forall l :: l in links ==> l.meter in readings
    ensures r.Keys == readings.Keys
  {
    if links == [] then readings
    else
      var last := links[|links| - 1];
      Added(WithLinks(fleet, links[..|links| - 1], readings), last.meter, Delivered(fleet, last))
  }

  function SumP(ds: seq<Device>, skip: set<DeviceId>): real {
    if ds == [] then 0.0
    else SumP(ds[..|ds| - 1], skip) + if ds[|ds| - 1].id in skip then 0.0 else ds[|ds| - 1].p
  }

  function SumQ(ds: seq<Device>, skip: set<DeviceId>): real {
    if ds == [] then 0.0
    else SumQ(ds[..|ds| - 1], skip) + if ds[|ds| - 1].id in skip then 0.0 else ds[|ds| - 1].q
  }

  /** The net power of the devices that are not linked, category by category. */
  function UnlinkedNet(fleet: Fleet, linked: set<DeviceId>): Power {
    Power(SumP(fleet.loads, linked) - SumP(fleet.solar, linked)
            - SumP(fleet.pcs, linked) - SumP(fleet.generators, linked),
          SumQ(fleet.loads, linked) - 0.0 - SumQ(fleet.pcs, linked) - SumQ(fleet.generators, linked))
  }

  function Sources(links: seq<Link>): set<DeviceId> {
    set l | l in links :: l.source
  }

  /** The meters' readings after steps 6 and 7. */
  function BaseReadings(fleet: Fleet, links: seq<Link>, meters: set<MeterId>, default: Option<MeterId>)
    : (r: map<MeterId, Power>)
    requires forall l :: l in links ==> l.meter in meters
    ensures r.Keys == meters
  {
    var linked := WithLinks(fleet, links, ZeroReadings(meters));
    if default.Some? && default.value in meters
    then Added(linked, default.value, UnlinkedNet(fleet, Sources(links)))
    else linked
  }

  // ---- Conservation ----

  /** The sum over meters, each counted once. */
  function MeterSum(ids: seq<MeterId>, readings: map<MeterId, Power>): Power
    requires forall m :: m in ids ==> m in readings
  {
    if ids == [] then Zero() else Plus(MeterSum(ids[..|ids| - 1], readings), readings[ids[|ids| - 1]])
  }

  /** The signed sum over devices, leaving some out. */
  function DeviceSum(ds: seq<Device>, skip: set<DeviceId>): Power {
    if ds == [] then Zero()
    else Plus(DeviceSum(ds[..|ds| - 1], skip), if ds[|ds| - 1].id in skip then Zero() else Contribution(ds[|ds| - 1]))
  }

  function Losses(fleet: Fleet, links: seq<Link>): Power {
    if links == [] then Zero()
    else Plus(Losses(fleet, links[..|links| - 1]), Scale(links[|links| - 1].loss, Carried(fleet, links[|links| - 1])))
  }

  /** What the devices of this id show, but for the first of them, the only one a link finds. */
  function Later(ds: seq<Device>, id: DeviceId): Power {
    if ds == [] then Zero()
    else
      var init, last := ds[..|ds| - 1], ds[|ds| - 1];
      Plus(Later(init, id), if last.id == id && Find(init, id).Some? then Contribution(last) else Zero())
  }

  /** The power no meter sees: its device has a linked id, but is not the first with it. */
  function Shadowed(ds: seq<Device>, links: seq<Link>): Power {
    if links == [] then Zero() else Plus(Shadowed(ds, links[..|links| - 1]), Later(ds, links[|links| - 1].source))
  }

  /** No two devices carry this id. */
  ghost predicate Alone(ds: seq<Device>, id: DeviceId) {
    forall i, j :: 0 <= i < j < |ds| ==> ds[i].id != id || ds[j].id != id
  }

  ghost predicate LinkedAlone(ds: seq<Device>, links: seq<Link>) {
    forall l :: l in links ==> Alone(ds, l.source)
  }

  ghost predicate DistinctSources(links: seq<Link>) {
    forall i, j :: 0 <= i < j < |links| ==> links[i].source != links[j].source
  }

  lemma {:induction false} MeterSumFrame(ids: seq<MeterId>, r1: map<MeterId, Power>, r2: map<MeterId, Power>)
    requires forall m :: m in ids ==> m in r1 && m in r2 && r1[m] == r2[m]
    ensures MeterSum(ids, r1) == MeterSum(ids, r2)
  {
    if ids != [] { MeterSumFrame(ids[..|ids| - 1], r1, r2); }
  }

  lemma PlusSwap(a: Power, b: Power, x: Power)
    ensures Plus(Plus(a, x), b) == Plus(Plus(a, b), x) && Plus(a, Plus(b, x)) == Plus(Plus(a, b), x)
  {}

  /** Adding power to one meter adds it to the sum once. */
  lemma {:induction false} MeterSumAdded(ids: seq<MeterId>, readings: map<MeterId, Power>, m: MeterId, x: Power)
    requires Distinct(ids) && (forall i :: i in ids ==> i in readings) && m in ids
    ensures MeterSum(ids, Added(readings, m, x)) == Plus(MeterSum(ids, readings), x)
  {
    var last, init := ids[|ids| - 1], ids[..|ids| - 1];
    assert ids == init + [last];
    PlusSwap(MeterSum(init, readings), readings[last], x);
    hide Plus;
    if last == m {
      assert m !in init;
      MeterSumFrame(init, readings, Added(readings, m, x));
    } else {
      MeterSumAdded(init, readings, m, x);
    }
  }

  lemma {:induction false} MeterSumZero(ids: seq<MeterId>, meters: set<MeterId>)
    requires forall m :: m in ids ==> m in meters
    ensures MeterSum(ids, ZeroReadings(meters)) == Zero()
  {
    if ids != [] { MeterSumZero(ids[..|ids| - 1], meters); }
  }

  lemma {:induction false} DeviceSumFrame(ds: seq<Device>, s1: set<DeviceId>, s2: set<DeviceId>)
    requires forall d :: d in ds ==> (d.id in s1 <==> d.id in s2)
    ensures DeviceSum(ds, s1) == DeviceSum(ds, s2)
  {
    if ds != [] { DeviceSumFrame(ds[..|ds| - 1], s1, s2); }
  }

  lemma {:induction false} FindLast(ds: seq<Device>, id: DeviceId)
    requires ds != []
    ensures var init, last := ds[..|ds| - 1], ds[|ds| - 1];
      Find(ds, id) == if Find(init, id).Some? then Find(init, id) else if last.id == id then Some(last) else None
  {
    if |ds| > 1 {
      FindLast(ds[1..], id);
      assert ds[1..][..|ds| - 2] == ds[..|ds| - 1][1..];
    }
  }

  function Found(ds: seq<Device>, id: DeviceId): Power {
    if Find(ds, id).Some? then Contribution(Find(ds, id).value) else Zero()
  }

  /** The sums over a list, by its last device. */
  lemma LastDevice(ds: seq<Device>, skip: set<DeviceId>, id: DeviceId)
    requires ds != []
    ensures var init, last := ds[..|ds| - 1], ds[|ds| - 1];
      && DeviceSum(ds, skip) == Plus(DeviceSum(init, skip), if last.id in skip then Zero() else Contribution(last))
      && Found(ds, id) == (if Find(init, id).None? && last.id == id then Contribution(last) else Found(init, id))
      && Later(ds, id) == Plus(Later(init, id),
                            if last.id == id && Find(init, id).Some? then Contribution(last) else Zero())
  {
    FindLast(ds, id);
    hide Contribution, Plus;
  }

  lemma Regroup(a: Power, f: Power, l: Power, c: Power)
    ensures Plus(Plus(Plus(a, f), l), c) == Plus(Plus(a, f), Plus(l, c)) == Plus(Plus(Plus(a, c), f), l)
    ensures Plus(a, Zero()) == a && Plus(l, Zero()) == l
    ensures f == Zero() ==> Plus(Plus(Plus(a, f), l), c) == Plus(Plus(a, c), l)
  {}

  /** Leaving one more id out takes the first device with it off the sum, and the later ones. */
  lemma {:induction false} SkipOne(ds: seq<Device>, skip: set<DeviceId>, id: DeviceId)
    requires id !in skip
    ensures DeviceSum(ds, skip) == Plus(Plus(DeviceSum(ds, skip + {id}), Found(ds, id)), Later(ds, id))
  {
    if ds != [] {
      var init, last := ds[..|ds| - 1], ds[|ds| - 1];
      SkipOne(init, skip, id);
      LastDevice(ds, skip, id);
      LastDevice(ds, skip + {id}, id);
      Regroup(DeviceSum(init, skip + {id}), Found(init, id), Later(init, id), Contribution(last));
      hide Find, Contribution, Plus, DeviceSum, Later;
      assert Find(init, id).None? ==> Found(init, id) == Zero();
      hide *;
      if last.id != id {
        assert last.id in skip <==> last.id in skip + {id};
      }
    }
  }

  lemma DeviceSumSnoc(ds: seq<Device>, d: Device, skip: set<DeviceId>)
    ensures DeviceSum(ds + [d], skip) == Plus(DeviceSum(ds, skip), if d.id in skip then Zero() else Contribution(d))
  {
    assert (ds + [d])[..|ds|] == ds;
  }

  lemma AppendStep(a: seq<Device>, init: seq<Device>, last: Device, skip: set<DeviceId>)
    requires DeviceSum(a + init, skip) == Plus(DeviceSum(a, skip), DeviceSum(init, skip))
    ensures DeviceSum(a + init + [last], skip) == Plus(DeviceSum(a, skip), DeviceSum(init + [last], skip))
  {
    DeviceSumSnoc(a + init, last, skip);
    DeviceSumSnoc(init, last, skip);
    PlusSwap(DeviceSum(a, skip), DeviceSum(init, skip), if last.id in skip then Zero() else Contribution(last));
    hide *;
  }

  lemma {:induction false} DeviceSumAppend(a: seq<Device>, b: seq<Device>, skip: set<DeviceId>)
    ensures DeviceSum(a + b, skip) == Plus(DeviceSum(a, skip), DeviceSum(b, skip))
  {
    if b == [] {
      assert a + b == a;
    } else {
      var init, last := b[..|b| - 1], b[|b| - 1];
      DeviceSumAppend(a, init, skip);
      AppendStep(a, init, last, skip);
      assert init + [last] == b && a + init + [last] == a + b;
    }
  }

  lemma {:induction false} CategorySum(ds: seq<Device>, kind: Kind, skip: set<DeviceId>)
    requires forall d :: d in ds ==> d.kind == kind
    ensures DeviceSum(ds, skip)
         == match kind
            case Load => Power(SumP(ds, skip), SumQ(ds, skip))
            case Solar => Power(-SumP(ds, skip), 0.0)
            case _ => Power(-SumP(ds, skip), -SumQ(ds, skip))
  {
    if ds != [] { CategorySum(ds[..|ds| - 1], kind, skip); }
  }

  /** The category-wise net power is the signed sum of the devices that are not linked. */
  lemma UnlinkedIsDeviceSum(fleet: Fleet, linked: set<DeviceId>)
    requires fleet.Sorted()
    ensures UnlinkedNet(fleet, linked) == DeviceSum(fleet.All(), linked)
  {
    CategorySum(fleet.pcs, Pcs, linked);
    CategorySum(fleet.solar, Solar, linked);
    CategorySum(fleet.loads, Load, linked);
    CategorySum(fleet.generators, Generator, linked);
    DeviceSumAppend(fleet.pcs, fleet.solar, linked);
    DeviceSumAppend(fleet.pcs + fleet.solar, fleet.loads, linked);
    DeviceSumAppend(fleet.pcs + fleet.solar + fleet.loads, fleet.generators, linked);
  }

  /** What the links delivered, lost, never saw and left over makes up the whole fleet. */
  lemma {:induction false} LinkedBalance(fleet: Fleet, links: seq<Link>, ids: seq<MeterId>, meters: set<MeterId>)
    requires DistinctSources(links) && Distinct(ids) && Elements(ids) == meters
    requires forall l :: l in links ==> l.meter in meters
    ensures var linked, ds := WithLinks(fleet, links, ZeroReadings(meters)), fleet.All();
            Plus(Plus(MeterSum(ids, linked), Plus(Losses(fleet, links), Shadowed(ds, links))),
                 DeviceSum(ds, Sources(links)))
            == DeviceSum(ds, {})
  {
    assert forall m :: m in ids ==> m in Elements(ids);
    if links == [] {
      MeterSumZero(ids, meters);
      assert Sources(links) == {};
    } else {
      var last, init := links[|links| - 1], links[..|links| - 1];
      assert links == init + [last];
      LinkedBalance(fleet, init, ids, meters);
      assert last.meter in Elements(ids);
      assert last.source !in Sources(init);
      assert Sources(links) == Sources(init) + {last.source};
      LinkStep(fleet, links, ids, meters);
    }
  }

  lemma LinkStep(fleet: Fleet, links: seq<Link>, ids: seq<MeterId>, meters: set<MeterId>)
    requires links != [] && Distinct(ids) && links[|links| - 1].meter in ids
    requires forall m :: m in ids ==> m in meters
    requires forall l :: l in links ==> l.meter in meters
    requires var init, last := links[..|links| - 1], links[|links| - 1];
             last.source !in Sources(init) && Sources(links) == Sources(init) + {last.source}
    ensures var init, ds := links[..|links| - 1], fleet.All();
            Plus(Plus(MeterSum(ids, WithLinks(fleet, links, ZeroReadings(meters))),
                      Plus(Losses(fleet, links), Shadowed(ds, links))), DeviceSum(ds, Sources(links)))
            == Plus(Plus(MeterSum(ids, WithLinks(fleet, init, ZeroReadings(meters))),
                         Plus(Losses(fleet, init), Shadowed(ds, init))), DeviceSum(ds, Sources(init)))
  {
    var init, last := links[..|links| - 1], links[|links| - 1];
    var before := WithLinks(fleet, init, ZeroReadings(meters));
    MeterSumAdded(ids, before, last.meter, Delivered(fleet, last));
    SkipOne(fleet.All(), Sources(init), last.source);
    Split(last.loss, Carried(fleet, last));
    assert WithLinks(fleet, links, ZeroReadings(meters)) == Added(before, last.meter, Delivered(fleet, last));
    hide WithLinks, MeterSum, DeviceSum, Sources, Scale, Added, ZeroReadings, Fleet.All, Later;
  }

  lemma Split(loss: real, x: Power)
    ensures Plus(Scale(1.0 - loss, x), Scale(loss, x)) == x
  {}

  /** With a default meter, all meters together show the signed power of every device, each once, less the link losses
      and less what shadowed devices show, whatever is linked where. */
  lemma Balance(fleet: Fleet, links: seq<Link>, ids: seq<MeterId>, meters: set<MeterId>, default: MeterId)
    requires fleet.Sorted() && DistinctSources(links)
    requires Distinct(ids) && Elements(ids) == meters && default in meters
    requires forall l :: l in links ==> l.meter in meters
    ensures forall m :: m in ids ==> m in BaseReadings(fleet, links, meters, Some(default))
    ensures MeterSum(ids, BaseReadings(fleet, links, meters, Some(default)))
         == Minus(DeviceSum(fleet.All(), {}), Plus(Losses(fleet, links), Shadowed(fleet.All(), links)))
  {
    assert forall m :: m in ids ==> m in Elements(ids);
    assert default in Elements(ids);
    var linked := WithLinks(fleet, links, ZeroReadings(meters));
    assert BaseReadings(fleet, links, meters, Some(default))
        == Added(linked, default, UnlinkedNet(fleet, Sources(links)));
    LinkedBalance(fleet, links, ids, meters);
    UnlinkedIsDeviceSum(fleet, Sources(links));
    hide *;
    MeterSumAdded(ids, linked, default, UnlinkedNet(fleet, Sources(links)));
    Rest(MeterSum(ids, linked), Plus(Losses(fleet, links), Shadowed(fleet.All(), links)),
         UnlinkedNet(fleet, Sources(links)), DeviceSum(fleet.All(), {}));
  }

  lemma Rest(a: Power, lost: Power, rest: Power, total: Power)
    requires Plus(Plus(a, lost), rest) == total
    ensures Plus(a, rest) == Minus(total, lost)
  {}

  /** The meters together show what the devices show, less the link losses. */
  ghost predicate Conserves(fleet: Fleet, links: seq<Link>, ids: seq<MeterId>, meters: set<MeterId>, default: MeterId)
    requires forall l :: l in links ==> l.meter in meters
    requires forall m :: m in ids ==> m in meters
  {
    MeterSum(ids, BaseReadings(fleet, links, meters, Some(default)))
      == Minus(DeviceSum(fleet.All(), {}), Losses(fleet, links))
  }

  /** Power is conserved exactly when the shadowed devices' contributions cancel. */
  lemma ConservesIff(fleet: Fleet, links: seq<Link>, ids: seq<MeterId>, meters: set<MeterId>, default: MeterId)
    requires fleet.Sorted() && DistinctSources(links)
    requires Distinct(ids) && Elements(ids) == meters && default in meters
    requires forall l :: l in links ==> l.meter in meters
    ensures forall m :: m in ids ==> m in meters
    ensures Conserves(fleet, links, ids, meters, default) <==> Shadowed(fleet.All(), links) == Zero()
  {
    Balance(fleet, links, ids, meters, default);
    hide BaseReadings, MeterSum, DeviceSum, Losses, Shadowed, Fleet.All, Fleet.Sorted;
  }

  lemma {:induction false} FindNone(ds: seq<Device>, id: DeviceId)
    ensures Find(ds, id).None? <==> forall k :: 0 <= k < |ds| ==> ds[k].id != id
  {
    if ds != [] {
      FindNone(ds[1..], id);
      assert forall k :: 0 < k < |ds| ==> ds[k] == ds[1..][k - 1];
    }
  }

  lemma {:induction false} AloneNotLater(ds: seq<Device>, id: DeviceId)
    requires Alone(ds, id)
    ensures Later(ds, id) == Zero()
  {
    if ds != [] {
      AloneNotLater(ds[..|ds| - 1], id);
      FindNone(ds[..|ds| - 1], id);
    }
  }

  lemma {:induction false} NothingShadowed(ds: seq<Device>, links: seq<Link>)
    requires LinkedAlone(ds, links)
    ensures Shadowed(ds, links) == Zero()
  {
    if links != [] {
      NothingShadowed(ds, links[..|links| - 1]);
      AloneNotLater(ds, links[|links| - 1].source);
    }
  }

  /** When every linked id belongs to one device only, nothing but the link losses is lost. */
  lemma Conservation(fleet: Fleet, links: seq<Link>, ids: seq<MeterId>, meters: set<MeterId>, default: MeterId)
    requires fleet.Sorted() && DistinctSources(links) && LinkedAlone(fleet.All(), links)
    requires Distinct(ids) && Elements(ids) == meters && default in meters
    requires forall l :: l in links ==> l.meter in meters
    ensures forall m :: m in ids ==> m in meters
    ensures Conserves(fleet, links, ids, meters, default)
  {
    ConservesIff(fleet, links, ids, meters, default);
    NothingShadowed(fleet.All(), links);
  }

  // ---- Whatever the devices show ----

  ghost predicate SameShape(a: seq<Device>, b: seq<Device>) {
    |a| == |b| && forall i :: 0 <= i < |a| ==> a[i].kind == b[i].kind && a[i].id == b[i].id
  }

  /** The same devices, showing other power. */
  ghost predicate SameDevices(f: Fleet, g: Fleet) {
    && SameShape(f.pcs, g.pcs) && SameShape(f.solar, g.solar)
    && SameShape(f.loads, g.loads) && SameShape(f.generators, g.generators)
  }

  /** Every device adds one watt to its meter. */
  function Unit(ds: seq<Device>): seq<Device> {
    seq(|ds|, i requires 0 <= i < |ds| => Device(ds[i].kind, ds[i].id, if ds[i].kind.Load? then 1.0 else -1.0, 0.0))
  }

  function UnitFleet(f: Fleet): Fleet {
    Fleet(Unit(f.pcs), Unit(f.solar), Unit(f.loads), Unit(f.generators))
  }

  lemma UnitAll(f: Fleet)
    ensures UnitFleet(f).All() == Unit(f.All()) && SameDevices(f, UnitFleet(f))
    ensures f.Sorted() ==> UnitFleet(f).Sorted()
  {
    assert Unit(f.pcs + f.solar) == Unit(f.pcs) + Unit(f.solar);
    assert Unit(f.pcs + f.solar + f.loads) == Unit(f.pcs + f.solar) + Unit(f.loads);
  }

  lemma {:induction false} UnitLater(ds: seq<Device>, id: DeviceId)
    ensures Later(Unit(ds), id).p >= 0.0
    ensures !Alone(ds, id) ==> Later(Unit(ds), id).p > 0.0
  {
    if ds != [] {
      var init, last := ds[..|ds| - 1], ds[|ds| - 1];
      UnitLater(init, id);
      assert Unit(ds)[..|ds| - 1] == Unit(init);
      FindNone(Unit(init), id);
      hide Find;
      if i, j :| 0 <= i < j < |ds| && ds[i].id == id == ds[j].id {
        if j < |init| {
          assert init[i].id == id == init[j].id;
        } else {
          assert Unit(init)[i].id == id;
        }
      }
    }
  }

  lemma {:induction false} UnitShadowed(ds: seq<Device>, links: seq<Link>)
    ensures Shadowed(Unit(ds), links).p >= 0.0
    ensures !LinkedAlone(ds, links) ==> Shadowed(Unit(ds), links).p > 0.0
  {
    hide Alone, Later, Unit;
    if links != [] {
      UnitShadowed(ds, links[..|links| - 1]);
      UnitLater(ds, links[|links| - 1].source);
    }
  }

  lemma SameShapeAlone(f: Fleet, g: Fleet, links: seq<Link>)
    requires SameDevices(f, g) && LinkedAlone(f.All(), links)
    ensures LinkedAlone(g.All(), links) && (f.Sorted() ==> g.Sorted())
  {
    assert SameShape(f.All(), g.All());
    forall l | l in links ensures Alone(g.All(), l.source) {
      assert Alone(f.All(), l.source);
    }
  }

  /** Power is conserved whatever the devices show exactly when every linked id belongs to one device only. */
  lemma AlwaysConservesIff(fleet: Fleet, links: seq<Link>, ids: seq<MeterId>, meters: set<MeterId>, default: MeterId)
    requires fleet.Sorted() && DistinctSources(links)
    requires Distinct(ids) && Elements(ids) == meters && default in meters
    requires forall l :: l in links ==> l.meter in meters
    ensures forall m :: m in ids ==> m in meters
    ensures (forall g | SameDevices(fleet, g) :: Conserves(g, links, ids, meters, default))
       <==> LinkedAlone(fleet.All(), links)
  {
    var unit := UnitFleet(fleet);
    UnitAll(fleet);
    UnitShadowed(fleet.All(), links);
    ConservesIff(unit, links, ids, meters, default);
    hide Conserves, Unit, UnitFleet, Shadowed, SameShape, Fleet.All, Fleet.Sorted,
      LinkedAlone, SameDevices, DistinctSources;
    if LinkedAlone(fleet.All(), links) {
      forall g | SameDevices(fleet, g) ensures Conserves(g, links, ids, meters, default) {
        SameShapeAlone(fleet, g, links);
        Conservation(g, links, ids, meters, default);
      }
    }
  }

  lemma {:induction false} NoLosses(fleet: Fleet, links: seq<Link>)
    requires forall l :: l in links ==> l.loss == 0.0
    ensures Losses(fleet, links) == Zero()
  {
    if links != [] { NoLosses(fleet, links[..|links| - 1]); }
  }

  /** Without losses the total does not depend on how the devices are linked. */
  lemma LinkingIrrelevant(fleet: Fleet, links1: seq<Link>, links2: seq<Link>, ids: seq<MeterId>, meters: set<MeterId>,
                          default: MeterId)
    requires fleet.Sorted() && LinkedAlone(fleet.All(), links1) && LinkedAlone(fleet.All(), links2)
    requires Distinct(ids) && Elements(ids) == meters && default in meters
    requires DistinctSources(links1) && forall l :: l in links1 ==> l.meter in meters && l.loss == 0.0
    requires DistinctSources(links2) && forall l :: l in links2 ==> l.meter in meters && l.loss == 0.0
    ensures forall m :: m in ids ==> m in meters
    ensures MeterSum(ids, BaseReadings(fleet, links1, meters, Some(default)))
         == MeterSum(ids, BaseReadings(fleet, links2, meters, Some(default)))
  {
    Conservation(fleet, links1, ids, meters, default);
    Conservation(fleet, links2, ids, meters, default);
    NoLosses(fleet, links1);
    NoLosses(fleet, links2);
  }

  /** The ids must be unique: of two devices sharing a linked id, only the first one's power arrives. */
  lemma SharedIdLosesPower(p: real, q: real)
    requires p != 0.0
    ensures var d1, d2 := Device(Load, DeviceId("a"), p, q), Device(Load, DeviceId("a"), p, q);
            var fleet, m := Fleet([], [], [d1, d2], []), MeterId("m");
            && MeterSum([m], BaseReadings(fleet, [Link(DeviceId("a"), m, 0.0)], {m}, Some(m))) == Power(p, q)
            && DeviceSum(fleet.All(), {}) == Power(p + p, q + q)
  {
    var d := Device(Load, DeviceId("a"), p, q);
    var fleet, m, link := Fleet([], [], [d, d], []), MeterId("m"), Link(DeviceId("a"), MeterId("m"), 0.0);
    assert fleet.All() == [d, d];
    assert Sources([link]) == {DeviceId("a")};
    assert [d, d][..1] == [d] && [link][..0] == [] && [m][..0] == [];
    assert SumP([d], {DeviceId("a")}) == 0.0 && SumQ([d], {DeviceId("a")}) == 0.0;
    assert WithLinks(fleet, [], ZeroReadings({m})) == ZeroReadings({m});
    assert DeviceSum([d], {}) == Power(p, q);
  }
}
