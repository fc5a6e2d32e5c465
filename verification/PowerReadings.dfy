/** What each single meter shows after devices and links are settled. */
module PowerReadings {
  import opened Numeric
  import opened Aggregation
  import opened AggregationRules
  import opened PowerBalance

  /** The first device with the id. */
  ghost predicate IsFirst(ds: seq<Device>, id: DeviceId, i: nat) {
    i < |ds| && ds[i].id == id && forall j :: 0 <= j < i ==> ds[j].id != id
  }

  /** Loads count up, everything else down; solar devices show no reactive power. */
  ghost predicate Signs(d: Device, x: Power) {
    && x.p == (if d.kind.Load? then d.p else -d.p)
    && x.q == (if d.kind.Load? then d.q else if d.kind.Solar? then 0.0 else -d.q)
  }

  ghost predicate NoneHas(ds: seq<Device>, id: DeviceId) {
    forall j :: 0 <= j < |ds| ==> ds[j].id != id
  }

  function Kept(loss: real, x: real): real {
    x - loss * x
  }

  /** What a link brings: the signed power of the first device with its source id, less its share of loss. */
  ghost predicate Brings(fleet: Fleet, l: Link, x: Power) {
    || (NoneHas(fleet.All(), l.source) && x == Power(0.0, 0.0))
    || (exists i: nat, c :: IsFirst(fleet.All(), l.source, i) && Signs(fleet.All()[i], c)
                            && x == Power(Kept(l.loss, c.p), Kept(l.loss, c.q)))
  }

  lemma {:induction false} FindIsFirst(ds: seq<Device>, id: DeviceId)
    ensures Find(ds, id).None? <==> NoneHas(ds, id)
    ensures forall i: nat :: IsFirst(ds, id, i) ==> Find(ds, id) == Some(ds[i])
  {
    if ds != [] {
      FindIsFirst(ds[1..], id);
      if ds[0].id != id {
        forall i: nat | IsFirst(ds, id, i) ensures Find(ds, id) == Some(ds[i]) {
          assert IsFirst(ds[1..], id, i - 1);
        }
        assert NoneHas(ds, id) <==> NoneHas(ds[1..], id);
      }
    }
  }

  lemma BringsDelivered(fleet: Fleet, l: Link, x: Power)
    requires Brings(fleet, l, x)
    ensures Delivered(fleet, l) == x
  {
    FindIsFirst(fleet.All(), l.source);
    KeptIs(l.loss, Carried(fleet, l));
    hide Fleet.All, Find, Kept, Scale;
  }

  lemma KeptIs(loss: real, c: Power)
    ensures Scale(1.0 - loss, c) == Power(Kept(loss, c.p), Kept(loss, c.q))
    ensures Kept(loss, 0.0) == 0.0
  {
    assert (1.0 - loss) * c.p == c.p - loss * c.p && (1.0 - loss) * c.q == c.q - loss * c.q;
  }

  /** xs are what the links bring. */
  ghost predicate AllBring(fleet: Fleet, links: seq<Link>, xs: seq<Power>) {
    |xs| == |links| && forall i :: 0 <= i < |links| ==> Brings(fleet, links[i], xs[i])
  }

  /** The sum over the links that end at the meter. */
  function Incoming(links: seq<Link>, xs: seq<Power>, m: MeterId): Power
    requires |xs| == |links|
  {
    if links == [] then Power(0.0, 0.0)
    else
      var k := |links| - 1;
      var before := Incoming(links[..k], xs[..k], m);
      if links[k].meter == m then Power(before.p + xs[k].p, before.q + xs[k].q) else before
  }

  lemma LastLink(fleet: Fleet, links: seq<Link>, readings: map<MeterId, Power>, m: MeterId)
    requires links != [] && m in readings && forall l :: l in links ==> l.meter in readings
    ensures var k := |links| - 1;
      var before, x := WithLinks(fleet, links[..k], readings)[m], Delivered(fleet, links[k]);
      WithLinks(fleet, links, readings)[m] ==
        if links[k].meter == m then Power(before.p + x.p, before.q + x.q) else before
  {
    hide Delivered;
  }

  lemma {:induction false} LinkedReading(fleet: Fleet, links: seq<Link>, xs: seq<Power>, meters: set<MeterId>,
                                         m: MeterId)
    requires m in meters && AllBring(fleet, links, xs) && forall l :: l in links ==> l.meter in meters
    ensures WithLinks(fleet, links, ZeroReadings(meters))[m] == Incoming(links, xs, m)
  {
    if links != [] {
      var k := |links| - 1;
      assert links[k] in links && forall l :: l in links[..k] ==> l in links;
      LinkedReading(fleet, links[..k], xs[..k], meters, m);
      BringsDelivered(fleet, links[k], xs[k]);
      hide Brings, Delivered, AllBring;
      LastLink(fleet, links, ZeroReadings(meters), m);
    }
  }

  /** The devices no link names, each with its signed power. */
  ghost predicate Free(ds: seq<Device>, links: seq<Link>, ys: seq<Power>) {
    |ys| == |ds| && forall i :: 0 <= i < |ds| ==>
      if exists l :: l in links && l.source == ds[i].id then ys[i] == Power(0.0, 0.0) else Signs(ds[i], ys[i])
  }

  function Total(xs: seq<Power>): Power {
    if xs == [] then Power(0.0, 0.0)
    else
      var k := |xs| - 1;
      Power(Total(xs[..k]).p + xs[k].p, Total(xs[..k]).q + xs[k].q)
  }

  lemma LinkedIff(links: seq<Link>, id: DeviceId)
    ensures id in Sources(links) <==> exists l :: l in links && l.source == id
  {}

  lemma LastDevice(ds: seq<Device>, skip: set<DeviceId>)
    requires ds != []
    ensures var k := |ds| - 1;
      var before, c := DeviceSum(ds[..k], skip), Contribution(ds[k]);
      DeviceSum(ds, skip) == if ds[k].id in skip then before else Power(before.p + c.p, before.q + c.q)
  {
    hide Contribution;
  }

  lemma {:induction false} FreeTotal(ds: seq<Device>, links: seq<Link>, ys: seq<Power>)
    requires Free(ds, links, ys)
    ensures DeviceSum(ds, Sources(links)) == Total(ys)
  {
    if ds != [] {
      var k := |ds| - 1;
      LinkedIff(links, ds[k].id);
      hide Sources, DeviceSum;
      FreeTotal(ds[..k], links, ys[..k]);
      LastDevice(ds, Sources(links));
    }
  }

  /** Each meter shows what the links that end there bring; the default meter also the signed power of every device no
      link names. */
  lemma MeterReading(fleet: Fleet, links: seq<Link>, xs: seq<Power>, ys: seq<Power>, meters: set<MeterId>,
                     default: Option<MeterId>, m: MeterId)
    requires fleet.Sorted() && m in meters && forall l :: l in links ==> l.meter in meters
    requires AllBring(fleet, links, xs) && Free(fleet.All(), links, ys)
    ensures BaseReadings(fleet, links, meters, default)[m] ==
      var x, y := Incoming(links, xs, m), Total(ys);
      if default == Some(m) then Power(x.p + y.p, x.q + y.q) else x
  {
    LinkedReading(fleet, links, xs, meters, m);
    FreeTotal(fleet.All(), links, ys);
    UnlinkedIsDeviceSum(fleet, Sources(links));
    hide AllBring, Free, Incoming, Total, DeviceSum, UnlinkedNet, WithLinks, Sources, Fleet.All;
  }

  /** There always are such xs and ys. */
  lemma ReadingsExist(fleet: Fleet, links: seq<Link>) returns (xs: seq<Power>, ys: seq<Power>)
    ensures AllBring(fleet, links, xs) && Free(fleet.All(), links, ys)
  {
    xs := seq(|links|, i requires 0 <= i < |links| => Delivered(fleet, links[i]));
    ys := seq(|fleet.All()|, i requires 0 <= i < |fleet.All()| =>
      if fleet.All()[i].id in Sources(links) then Zero() else Contribution(fleet.All()[i]));
    hide Fleet.All;
    forall i | 0 <= i < |links| ensures Brings(fleet, links[i], xs[i]) {
      DeliveredBrings(fleet, links[i]);
    }
  }

  lemma DeliveredBrings(fleet: Fleet, l: Link)
    ensures Brings(fleet, l, Delivered(fleet, l))
  {
    var ds := fleet.All();
    FindIsFirst(ds, l.source);
    KeptIs(l.loss, Carried(fleet, l));
    hide Fleet.All, Find, Kept, Scale;
    if !NoneHas(ds, l.source) {
      var i := FirstWith(ds, l.source);
      assert IsFirst(ds, l.source, i) && Signs(ds[i], Contribution(ds[i]));
    }
  }

  lemma FirstWith(ds: seq<Device>, id: DeviceId) returns (i: nat)
    requires !NoneHas(ds, id)
    ensures IsFirst(ds, id, i)
  {
    i := 0;
    while ds[i].id != id
      invariant i < |ds| && forall j :: 0 <= j < i ==> ds[j].id != id
      decreases |ds| - i
    {
      i := i + 1;
    }
  }
}
