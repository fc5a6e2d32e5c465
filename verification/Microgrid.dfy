/** The microgrid simulator: meters are objects it updates in place, tick by tick. */
module Microgrid {
  import opened Collections
  import opened Numeric
  import opened Aggregation
  import opened AggregationRules
  import opened PowerBalance

  class PowerMeter {
    const sign: real
    var linked: Power
    var raw: Power
    var active: Power

    constructor (sign: real)
      ensures this.sign == sign && linked == Zero() && raw == Zero()
    {
      this.sign := sign;
      linked, raw, active := Zero(), Zero(), Zero();
    }

    method ResetLinkedPower()
      modifies this`linked
      ensures linked == Zero()
    {
      linked := Zero();
    }

    method AddLinkedPower(x: Power)
      modifies this`linked
      ensures linked == Plus(old(linked), x)
    {
      linked := Plus(linked, x);
    }

    /** The reading is the accumulated power, and shown with the meter's sign. */
    ghost predicate Final()
      reads this`raw, this`linked, this`active
    {
      raw == linked && active == Scale(sign, raw)
    }

    method FinalizeLinkedReading()
      modifies this`raw, this`active
      ensures raw == linked && active == Scale(sign, linked) && Final()
    {
      raw := linked;
      active := Scale(sign, linked);
    }

    method SetPartialReading(x: Power)
      modifies this`raw, this`active
      ensures raw == x && active == Scale(sign, x)
    {
      raw := x;
      active := Scale(sign, x);
    }
  }

  datatype Outcome = Accepted | UnknownMeter | UnknownDevice | AlreadyPresent | Circular

  class MicrogridSimulator {
    var ids: seq<MeterId>
    var meters: map<MeterId, PowerMeter>
    /** For every id the first one registered with the same meter object. */
    ghost var names: map<MeterId, MeterId>
    var default: Option<MeterId>
    var fleet: Fleet
    var links: seq<Link>
    var rules: seq<Rule>
    var order: seq<Rule>

    /** Ids are registered once each; links and rules mention known ids only; the order is a topological order of
        exactly the accepted rules. */
    ghost predicate Valid()
      reads this
    {
      Registry() && Linkable() && Scheduled()
    }

    ghost predicate Registry()
      reads this`ids, this`meters, this`names, this`default
    {
      && Distinct(ids) && Elements(ids) == meters.Keys && Naming(meters, names)
      && (default.Some? ==> default.value in meters)
      && (default.None? <==> ids == [])
    }

    ghost predicate Linkable()
      reads this`meters, this`fleet, this`links
    {
      && fleet.Sorted()
      && DistinctSources(links)
      && (forall l :: l in links ==> l.meter in meters && Find(fleet.All(), l.source).Some?)
    }

    ghost predicate Scheduled()
      reads this`meters, this`rules, this`order
    {
      DistinctTargets(rules) && Wired(meters.Keys, rules) && Topological(rules, order)
    }

    /** Different ids stand for different meter objects. */
    ghost predicate Separate()
      reads this
    {
      AllDifferent(meters)
    }

    /** What each meter object has accumulated, under its first id. */
    ghost function Linked(): map<MeterId, Power>
      reads this`meters, this`names, meters.Values`linked
    {
      map m | m in meters && m in Firsts(names) :: meters[m].linked
    }

    ghost function Raw(): map<MeterId, Power>
      reads this`meters, this`names, meters.Values`raw
    {
      map m | m in meters && m in Firsts(names) :: meters[m].raw
    }

    /** Every meter shows what it holds, with its sign. */
    ghost predicate Signed()
      reads this`meters, meters.Values`raw, meters.Values`active
    {
      forall m :: m in meters ==> meters[m].active == Scale(meters[m].sign, meters[m].raw)
    }

    constructor ()
      ensures Valid() && Separate() && ids == [] && rules == [] && links == []
    {
      ids, meters, names, default := [], map[], map[], None;
      fleet, links := Fleet([], [], [], []), [];
      rules, order := [], [];
    }

    // ---- Registration ----

    method AddMeter(meter: PowerMeter, id: MeterId) returns (outcome: Outcome)
      requires Valid()
      modifies this`ids, this`meters, this`names, this`default
      ensures Valid()
      ensures outcome == if id in old(meters) then AlreadyPresent else Accepted
      ensures outcome == Accepted ==> ids == old(ids) + [id] && meters == old(meters)[id := meter]
      ensures outcome != Accepted ==> ids == old(ids) && meters == old(meters)
      ensures default == if outcome == Accepted && old(default).None? then Some(id) else old(default)
      ensures Separate() <==> old(Separate()) && (outcome == Accepted ==> meter !in old(meters).Values)
    {
      hide Naming, Wired, Distinct, Elements, AllDifferent, NameFor, DistinctSources, Find,
        Topological, DistinctTargets;
      hide Fleet.All, Fleet.Sorted;
      if id in meters {
        return AlreadyPresent;
      }
      Registered(ids, meters, id, meter);
      WiredMore(meters.Keys, id, rules);
      NamedAlso(meters, names, id, meter);
      assert meters[id := meter].Keys == meters.Keys + {id};
      names := names[id := NameFor(meters, names, id, meter)];
      ids := ids + [id];
      meters := meters[id := meter];
      if default.None? {
        default := Some(id);
      }
      outcome := Accepted;
    }

    method AddDevice(d: Device)
      requires Valid()
      modifies this`fleet
      ensures Valid()
      ensures fleet == match d.kind
        case Pcs => old(fleet).(pcs := old(fleet).pcs + [d])
        case Solar => old(fleet).(solar := old(fleet).solar + [d])
        case Load => old(fleet).(loads := old(fleet).loads + [d])
        case Generator => old(fleet).(generators := old(fleet).generators + [d])
    {
      hide Registry, Scheduled;
      ghost var before := fleet.All();
      match d.kind {
        case Pcs => fleet := fleet.(pcs := fleet.pcs + [d]);
        case Solar => fleet := fleet.(solar := fleet.solar + [d]);
        case Load => fleet := fleet.(loads := fleet.loads + [d]);
        case Generator => fleet := fleet.(generators := fleet.generators + [d]);
      }
      forall l | l in links
        ensures Find(fleet.All(), l.source).Some?
      {
        FindPresent(before, l.source);
        FindPresent(fleet.All(), l.source);
      }
    }

    method AddDeviceLink(link: Link) returns (outcome: Outcome)
      requires Valid()
      modifies this`links
      ensures Valid()
      ensures outcome == if Find(fleet.All(), link.source).None? then UnknownDevice
                         else if link.meter !in meters then UnknownMeter
                         else if link.source in Sources(old(links)) then AlreadyPresent
                         else Accepted
      ensures links == if outcome == Accepted then old(links) + [link] else old(links)
    {
      hide Registry, Scheduled, Find, Fleet.All, Fleet.Sorted;
      if Find(fleet.All(), link.source).None? {
        return UnknownDevice;
      }
      if link.meter !in meters {
        return UnknownMeter;
      }
      if link.source in Sources(links) {
        return AlreadyPresent;
      }
      assert forall l :: l in links ==> l.source in Sources(links);
      hide Sources;
      links := links + [link];
      outcome := Accepted;
    }

    /** A rule is kept exactly when its meters are known, its target is new, and no dependency circle
        arises; otherwise rules and order stay as they were. */
    method AddMeterAggregation(rule: Rule) returns (outcome: Outcome)
      requires Valid()
      modifies this`rules, this`order
      ensures Valid()
      ensures outcome == if !Wired(meters.Keys, [rule]) then UnknownMeter
                         else if rule.target in Targets(old(rules)) then AlreadyPresent
                         else if Cyclic(old(rules) + [rule]) then Circular
                         else Accepted
      ensures outcome == Accepted ==> rules == old(rules) + [rule]
      ensures outcome != Accepted ==> rules == old(rules) && order == old(order)
    {
      hide Registry, Linkable, Topological, Cyclic;
      var i := 0;
      assert rule in [rule] && forall r :: r in [rule] ==> r == rule;
      while i < |rule.sources|
        invariant i <= |rule.sources| && forall k :: 0 <= k < i ==> rule.sources[k] in meters
      {
        if rule.sources[i] !in meters {
          return UnknownMeter;
        }
        i := i + 1;
      }
      if rule.target !in meters {
        return UnknownMeter;
      }
      if rule.target in Targets(rules) {
        return AlreadyPresent;
      }
      ghost var before := rules;
      OneMoreTarget(rules, rule);
      rules := rules + [rule];
      var result := BuildAggregationOrder(rules);
      if result.CycleFound? {
        rules := rules[..|rules| - 1];
        assert rules == before;
        return Circular;
      }
      order := result.order;
      outcome := Accepted;
    }

    // ---- Steps 6 to 8 of a tick ----

    method ResetMeters()
      requires Valid()
      modifies meters.Values`linked
      ensures Valid() && Linked() == ZeroReadings(Firsts(names))
    {
      IdsRegistered();
      hide *;
      var i := 0;
      while i < |ids|
        invariant i <= |ids| && forall k :: 0 <= k < i ==> meters[ids[k]].linked == Zero()
      {
        meters[ids[i]].ResetLinkedPower();
        i := i + 1;
      }
      AllZero();
    }

    lemma IdsRegistered()
      requires Valid()
      ensures forall k :: 0 <= k < |ids| ==> ids[k] in meters
    {
      KnownIds();
    }

    lemma KnownIds()
      requires Valid()
      ensures forall k :: 0 <= k < |ids| ==> ids[k] in meters
      ensures forall m :: m in meters ==> m in ids
    {
      hide Naming, Linkable, Scheduled;
      assert forall k :: 0 <= k < |ids| ==> ids[k] in Elements(ids);
      assert forall m :: m in meters ==> m in Elements(ids);
    }

    lemma AllZero()
      requires Valid() && forall k :: 0 <= k < |ids| ==> ids[k] in meters && meters[ids[k]].linked == Zero()
      ensures Linked() == ZeroReadings(Firsts(names))
    {
      KnownIds();
      LinkedShown();
      hide *;
      ZeroAt(Firsts(names));
      SameMap(Linked(), ZeroReadings(Firsts(names)));
    }

    /** What the meter objects have accumulated, as the map has it. */
    lemma LinkedShown()
      requires Valid()
      ensures Linked().Keys == Firsts(names)
      ensures forall f :: f in Firsts(names) ==> f in meters && Linked()[f] == meters[f].linked
    {
      FirstsKnown(meters, names);
      hide Valid, Firsts;
    }

    method AddTo(m: MeterId, x: Power)
      requires Valid() && m in meters
      modifies meters.Values`linked
      ensures Valid() && NameOf(names, m) in old(Linked())
      ensures Linked() == Added(old(Linked()), NameOf(names, m), x)
    {
      FirstOfObject(meters, names, m);
      LinkedShown();
      hide *;
      ghost var before := Linked();
      meters[m].AddLinkedPower(x);
      OneAdded(before, m, x);
    }

    lemma OneAdded(before: map<MeterId, Power>, m: MeterId, x: Power)
      requires Valid() && m in meters && NameOf(names, m) in before && before.Keys == Firsts(names)
      requires meters[m].linked == Plus(before[NameOf(names, m)], x)
      requires forall f :: f in Firsts(names) && f != NameOf(names, m) ==> f in meters && before[f] == meters[f].linked
      ensures Linked() == Added(before, NameOf(names, m), x)
    {
      FirstOfObject(meters, names, m);
      LinkedShown();
      hide Valid, Firsts, NameOf, Plus, Linked;
      SameMap(Linked(), Added(before, NameOf(names, m), x));
    }

    method LinkDevices() returns (linkedIds: set<DeviceId>)
      requires Valid() && forall l :: l in links ==> l.meter in meters
      modifies meters.Values`linked
      ensures Valid() && linkedIds == Sources(links)
      ensures forall l :: l in Renamed(names, links) ==> l.meter in old(Linked())
      ensures Linked() == WithLinks(fleet, Renamed(names, links), old(Linked()))
    {
      linkedIds := {};
      LinkFacts();
      hide *;
      ghost var base, all := Linked(), Renamed(names, links);
      assert all[..0] == [];
      var i := 0;
      while i < |links|
        invariant i <= |links| && Valid() && linkedIds == Sources(all[..i])
        invariant Linked() == WithLinks(fleet, all[..i], base)
      {
        LinkAt(i);
        OneMoreLink(fleet, all, i, base);
        linkedIds := linkedIds + {links[i].source};
        AddTo(links[i].meter, Delivered(fleet, links[i]));
        i := i + 1;
      }
      assert all[..|all|] == all;
    }

    lemma LinkFacts()
      requires Valid()
      ensures Linked().Keys == Firsts(names)
      ensures forall l :: l in Renamed(names, links) ==> l.meter in Firsts(names)
      ensures Sources(Renamed(names, links)) == Sources(links)
      ensures WithLinks(fleet, [], Linked()) == Linked() && Sources([]) == {}
    {
      LinkTargets();
      FirstsKnown(meters, names);
      RenamedSources(names, links);
      hide Delivered, Firsts, Renamed, Naming;
    }

    lemma LinkAt(k: nat)
      requires Valid() && k < |links|
      ensures links[k].meter in meters
      ensures var link := Renamed(names, links)[k];
        && link.meter == NameOf(names, links[k].meter) && link.source == links[k].source
        && Delivered(fleet, link) == Delivered(fleet, links[k])
    {
      LinkTargets();
      hide Valid, Fleet.All, Scale, NameOf;
    }

    method DistributePower()
      requires Valid()
      modifies meters.Values`linked
      ensures Valid() && forall l :: l in links ==> l.meter in meters
      ensures forall l :: l in Renamed(names, links) ==> l.meter in Firsts(names)
      ensures Linked() == BaseReadings(fleet, Renamed(names, links), Firsts(names), FirstName(names, default))
    {
      DefaultFacts();
      hide *;
      ResetMeters();
      var linkedIds := LinkDevices();
      AddUnlinked(linkedIds);
    }

    /** What no link takes goes to the default meter, if there is one. */
    method AddUnlinked(linkedIds: set<DeviceId>)
      requires Valid() && (default.Some? ==> default.value in meters)
      modifies meters.Values`linked
      ensures Valid() && (default.Some? ==> NameOf(names, default.value) in old(Linked()))
      ensures Linked() == if default.None? then old(Linked())
                          else Added(old(Linked()), NameOf(names, default.value), UnlinkedNet(fleet, linkedIds))
    {
      hide *;
      if default.Some? && default.value in meters {
        AddTo(default.value, UnlinkedNet(fleet, linkedIds));
      }
    }

    lemma DefaultFacts()
      requires Valid()
      ensures forall l :: l in links ==> l.meter in meters
      ensures forall l :: l in Renamed(names, links) ==> l.meter in Firsts(names)
      ensures default.Some? ==> default.value in meters && NameOf(names, default.value) in Firsts(names)
      ensures var linked := WithLinks(fleet, Renamed(names, links), ZeroReadings(Firsts(names)));
        BaseReadings(fleet, Renamed(names, links), Firsts(names), FirstName(names, default)) ==
          if default.None? then linked
          else Added(linked, NameOf(names, default.value), UnlinkedNet(fleet, Sources(links)))
    {
      LinkTargets();
      RenamedSources(names, links);
      if default.Some? { FirstOfObject(meters, names, default.value); }
      BaseForm(fleet, Renamed(names, links), Firsts(names), FirstName(names, default));
      hide Naming, Firsts, Renamed, WithLinks, UnlinkedNet, Sources, Added, BaseReadings, NameOf;
    }

    lemma LinkTargets()
      requires Valid()
      ensures forall l :: l in links ==> l.meter in meters
      ensures default.Some? ==> default.value in meters
      ensures forall l :: l in Renamed(names, links) ==> l.meter in Firsts(names)
    {
      forall l | l in Renamed(names, links) ensures l.meter in Firsts(names) {
        var i :| 0 <= i < |links| && Renamed(names, links)[i] == l;
        FirstOfObject(meters, names, links[i].meter);
      }
    }

    method FinalizeMeters()
      requires Valid()
      modifies meters.Values`raw, meters.Values`active
      ensures Valid() && Signed() && Raw() == Linked() == old(Linked())
    {
      IdsRegistered();
      hide *;
      var i := 0;
      while i < |ids|
        invariant i <= |ids|
        invariant forall k :: 0 <= k < i ==> meters[ids[k]].Final()
      {
        meters[ids[i]].FinalizeLinkedReading();
        i := i + 1;
      }
      AllSigned();
      AllShown();
    }

    lemma AllSigned()
      requires Valid() && forall k :: 0 <= k < |ids| ==> ids[k] in meters && meters[ids[k]].Final()
      ensures Signed()
    {
      KnownIds();
      hide Valid, Scale;
    }

    lemma AllShown()
      requires Valid() && forall k :: 0 <= k < |ids| ==> ids[k] in meters && meters[ids[k]].Final()
      ensures Raw() == Linked()
    {
      KnownIds();
      assert forall m :: m in meters ==> meters[m].Final() && meters[m].raw == meters[m].linked;
      Shown();
      LinkedShown();
      hide *;
      SameMap(Raw(), Linked());
    }

    /** What the meter objects show, as the map of the readings has it. */
    lemma Shown()
      requires Valid()
      ensures Raw().Keys == Firsts(names)
      ensures forall m :: m in meters ==> NameOf(names, m) in Raw() && Raw()[NameOf(names, m)] == meters[m].raw
      ensures forall f :: f in Firsts(names) ==> f in meters && NameOf(names, f) == f
    {
      FirstsKnown(meters, names);
      forall m | m in meters ensures NameOf(names, m) in Firsts(names) && meters[NameOf(names, m)] == meters[m] {
        FirstOfObject(meters, names, m);
      }
      hide Valid, Naming;
    }

    /** The sum of what the sources' meters show now. */
    method SumSources(sources: seq<MeterId>) returns (total: Power)
      requires Valid() && forall s :: s in sources ==> s in meters
      ensures forall s :: s in RenamedIds(names, sources) ==> s in Raw()
      ensures total == TotalOf(Raw(), RenamedIds(names, sources))
    {
      SourcesShown(sources);
      assert TotalOf(Raw(), []) == Zero();
      hide *;
      ghost var all := RenamedIds(names, sources);
      total := Zero();
      var i := 0;
      assert all[..0] == [];
      while i < |sources|
        invariant i <= |sources| && total == TotalOf(Raw(), all[..i])
      {
        OneMoreTerm(Raw(), all, i);
        total := Plus(total, meters[sources[i]].raw);
        i := i + 1;
      }
      assert all[..|all|] == all;
    }

    lemma SourcesShown(sources: seq<MeterId>)
      requires Valid() && forall s :: s in sources ==> s in meters
      ensures forall s :: s in RenamedIds(names, sources) ==> s in Raw()
      ensures forall k :: 0 <= k < |sources| ==>
        && sources[k] in meters && RenamedIds(names, sources)[k] in Raw()
        && Raw()[RenamedIds(names, sources)[k]] == meters[sources[k]].raw
    {
      Shown();
      hide Valid, Raw, NameOf;
      assert forall k :: 0 <= k < |sources| ==> sources[k] in sources;
    }

    method Overwrite(rule: Rule)
      requires Valid() && Wired(meters.Keys, [rule])
      modifies meters.Values`raw, meters.Values`active
      ensures Valid() && Wired(old(Raw()).Keys, [RenamedRule(names, rule)]) && (old(Signed()) ==> Signed())
      ensures RenamedRule(names, rule).target in Raw()
      ensures forall s :: s in RenamedRule(names, rule).sources ==> s in old(Raw())
      ensures var r := RenamedRule(names, rule); Raw() == old(Raw())[r.target := TotalOf(old(Raw()), r.sources)]
    {
      RuleRenamed(meters, names, rule);
      FirstOfObject(meters, names, rule.target);
      Shown();
      hide *;
      ghost var before, signed := Raw(), Signed();
      var total := SumSources(rule.sources);
      meters[rule.target].SetPartialReading(total);
      OneShown(before, rule.target, total);
      StaySigned(rule.target, signed);
    }

    lemma StaySigned(m: MeterId, signed: bool)
      requires m in meters && meters[m].active == Scale(meters[m].sign, meters[m].raw)
      requires signed ==> forall o :: o in meters && meters[o] != meters[m] ==>
        meters[o].active == Scale(meters[o].sign, meters[o].raw)
      ensures signed ==> Signed()
    {
      hide Scale;
    }

    lemma OneShown(before: map<MeterId, Power>, m: MeterId, x: Power)
      requires Valid() && m in meters && meters[m].raw == x && before.Keys == Firsts(names)
      requires forall f :: f in Firsts(names) && f != NameOf(names, m) ==> f in meters && before[f] == meters[f].raw
      ensures Raw().Keys == Firsts(names) && Raw() == before[NameOf(names, m) := x]
    {
      FirstOfObject(meters, names, m);
      Shown();
      hide *;
      SameMap(Raw(), before[NameOf(names, m) := x]);
    }

    method Aggregate()
      requires Valid()
      modifies meters.Values`raw, meters.Values`active
      ensures Valid() && Wired(Firsts(names), RenamedRules(names, order)) && (old(Signed()) ==> Signed())
      ensures Raw() == Evaluated(RenamedRules(names, order), old(Raw()))
    {
      ghost var base := Raw();
      ghost var all := RenamedRules(names, order);
      FirstsKnown(meters, names);
      RulesRenamed(meters, names, order);
      assert base.Keys == Firsts(names) && all[..0] == [] && Evaluated(all[..0], base) == base;
      hide Valid, Raw, Evaluated, TotalOf, Naming, Firsts, Wired, Signed;
      var i := 0;
      while i < |order|
        invariant i <= |order| && Valid() && Wired(base.Keys, all[..i]) && Raw() == Evaluated(all[..i], base)
        invariant old(Signed()) ==> Signed()
      {
        EvaluatedNext(all, i, base);
        Overwrite(order[i]);
        i := i + 1;
      }
      assert all[..|all|] == all;
    }

    /** Steps 6 to 8, whatever ids share a meter object. Every meter shows its reading with its sign, and with different
        objects every aggregation equation holds at once over the balanced readings. */
    method Settle()
      requires Valid()
      modifies meters.Values
      ensures Valid() && Signed()
      ensures forall l :: l in links ==> l.meter in meters
      ensures forall l :: l in Renamed(names, links) ==> l.meter in Firsts(names)
      ensures Wired(meters.Keys, rules) && Wired(Firsts(names), RenamedRules(names, order))
      ensures Raw() == Evaluated(RenamedRules(names, order),
                BaseReadings(fleet, Renamed(names, links), Firsts(names), FirstName(names, default)))
      ensures Separate() ==> Solves(rules, BaseReadings(fleet, links, meters.Keys, default), Raw())
    {
      LinkTargets();
      WiredTargets();
      hide Valid, Signed, Naming, Firsts, Renamed, RenamedRules, FirstName, Wired, AllDifferent, Topological;
      DistributePower();
      FinalizeMeters();
      ghost var base := Raw();
      Aggregate();
      if Separate() {
        SeparateSolves(base);
      }
    }

    lemma WiredTargets()
      requires Valid()
      ensures Wired(meters.Keys, rules) && Wired(meters.Keys, order)
      ensures Wired(Firsts(names), RenamedRules(names, order))
    {
      RulesRenamed(meters, names, order);
    }

    lemma SeparateSolves(base: map<MeterId, Power>)
      requires Valid() && Separate() && (forall l :: l in links ==> l.meter in meters) && Wired(meters.Keys, rules)
      requires Wired(meters.Keys, order) && (forall l :: l in Renamed(names, links) ==> l.meter in Firsts(names))
      requires base == BaseReadings(fleet, Renamed(names, links), Firsts(names), FirstName(names, default))
      requires Wired(base.Keys, RenamedRules(names, order)) && Raw() == Evaluated(RenamedRules(names, order), base)
      ensures Solves(rules, BaseReadings(fleet, links, meters.Keys, default), Raw())
    {
      OwnNames(meters, names);
      NothingRenamed(names, links, order, default);
      hide BaseReadings, Evaluated, Renamed, RenamedRules, Naming, Solves;
      SettledSolves(rules, order, base, Raw());
    }
  }

  // ---- Ids that share a meter object ----

  /** Two ids have the same name exactly if they stand for the same object, and the name is one of its ids. */
  ghost predicate Naming(meters: map<MeterId, PowerMeter>, names: map<MeterId, MeterId>) {
    && names.Keys == meters.Keys
    && (forall m :: m in names ==> names[m] in meters && meters[names[m]] == meters[m])
    && (forall a, b :: a in names && b in names && meters[a] == meters[b] ==> names[a] == names[b])
  }

  ghost function NameFor(meters: map<MeterId, PowerMeter>, names: map<MeterId, MeterId>, id: MeterId, meter: PowerMeter)
    : MeterId
    requires Naming(meters, names)
  {
    if exists twin :: twin in meters && meters[twin] == meter then
      var twin :| twin in meters && meters[twin] == meter; names[twin]
    else id
  }

  lemma NamedAlso(meters: map<MeterId, PowerMeter>, names: map<MeterId, MeterId>, id: MeterId, meter: PowerMeter)
    requires Naming(meters, names) && id !in meters
    ensures Naming(meters[id := meter], names[id := NameFor(meters, names, id, meter)])
  {}

  /** The ids that are their object's name. */
  ghost function Firsts(names: map<MeterId, MeterId>): set<MeterId> {
    set m | m in names && names[m] == m
  }

  lemma FirstsKnown(meters: map<MeterId, PowerMeter>, names: map<MeterId, MeterId>)
    requires Naming(meters, names)
    ensures names.Keys == meters.Keys && forall m :: m in Firsts(names) ==> m in meters
  {}

  lemma FirstOfObject(meters: map<MeterId, PowerMeter>, names: map<MeterId, MeterId>, m: MeterId)
    requires Naming(meters, names) && m in meters
    ensures NameOf(names, m) in Firsts(names) && NameOf(names, m) in meters && meters[NameOf(names, m)] == meters[m]
    ensures forall f :: f in Firsts(names) ==> f in meters && (meters[f] == meters[m] <==> f == NameOf(names, m))
  {}

  lemma OwnNames(meters: map<MeterId, PowerMeter>, names: map<MeterId, MeterId>)
    requires Naming(meters, names) && AllDifferent(meters)
    ensures Firsts(names) == meters.Keys && forall m :: m in names ==> names[m] == m
  {}

  ghost function NameOf(names: map<MeterId, MeterId>, m: MeterId): MeterId {
    if m in names then names[m] else m
  }

  ghost function FirstName(names: map<MeterId, MeterId>, m: Option<MeterId>): Option<MeterId> {
    if m.Some? then Some(NameOf(names, m.value)) else None
  }

  ghost function Renamed(names: map<MeterId, MeterId>, links: seq<Link>): (r: seq<Link>)
    ensures |r| == |links|
  {
    seq(|links|, i requires 0 <= i < |links| => links[i].(meter := NameOf(names, links[i].meter)))
  }

  ghost function RenamedIds(names: map<MeterId, MeterId>, ms: seq<MeterId>): (r: seq<MeterId>)
    ensures |r| == |ms|
  {
    seq(|ms|, i requires 0 <= i < |ms| => NameOf(names, ms[i]))
  }

  ghost function RenamedRule(names: map<MeterId, MeterId>, rule: Rule): Rule {
    rule.(target := NameOf(names, rule.target), sources := RenamedIds(names, rule.sources))
  }

  ghost function RenamedRules(names: map<MeterId, MeterId>, rules: seq<Rule>): (r: seq<Rule>)
    ensures |r| == |rules|
  {
    seq(|rules|, i requires 0 <= i < |rules| => RenamedRule(names, rules[i]))
  }

  lemma RuleRenamed(meters: map<MeterId, PowerMeter>, names: map<MeterId, MeterId>, rule: Rule)
    requires Naming(meters, names) && Wired(meters.Keys, [rule])
    ensures rule.target in meters && forall m :: m in rule.sources ==> m in meters
    ensures Wired(Firsts(names), [RenamedRule(names, rule)])
    ensures RenamedRule(names, rule).target == NameOf(names, rule.target)
    ensures RenamedRule(names, rule).sources == RenamedIds(names, rule.sources)
  {
    assert rule in [rule];
  }

  lemma RulesRenamed(meters: map<MeterId, PowerMeter>, names: map<MeterId, MeterId>, rules: seq<Rule>)
    requires Naming(meters, names) && Wired(meters.Keys, rules)
    ensures Wired(Firsts(names), RenamedRules(names, rules))
    ensures forall k :: 0 <= k < |rules| ==> Wired(meters.Keys, [rules[k]])
  {
    var all := RenamedRules(names, rules);
    forall r | r in all ensures r.target in Firsts(names) && forall s :: s in r.sources ==> s in Firsts(names) {
      var i :| 0 <= i < |all| && all[i] == r;
      assert rules[i] in rules;
      RuleRenamed(meters, names, rules[i]);
      assert r in [r];
    }
  }

  lemma BaseForm(fleet: Fleet, links: seq<Link>, meters: set<MeterId>, default: Option<MeterId>)
    requires forall l :: l in links ==> l.meter in meters
    ensures var linked := WithLinks(fleet, links, ZeroReadings(meters));
      BaseReadings(fleet, links, meters, default) ==
        if default.Some? && default.value in meters
        then Added(linked, default.value, UnlinkedNet(fleet, Sources(links))) else linked
  {
    hide WithLinks, UnlinkedNet, Sources, Added;
  }

  lemma RenamedSources(names: map<MeterId, MeterId>, links: seq<Link>)
    ensures Sources(Renamed(names, links)) == Sources(links)
  {
    var all := Renamed(names, links);
    forall l | l in links ensures l.source in Sources(all) {
      var i :| 0 <= i < |links| && links[i] == l;
      assert all[i] in all;
    }
    forall l | l in all ensures l.source in Sources(links) {
      var i :| 0 <= i < |all| && all[i] == l;
      assert links[i] in links;
    }
  }

  lemma NothingRenamed(names: map<MeterId, MeterId>, links: seq<Link>, order: seq<Rule>, default: Option<MeterId>)
    requires forall m :: m in names ==> names[m] == m
    ensures Renamed(names, links) == links && RenamedRules(names, order) == order
    ensures FirstName(names, default) == default
  {
    forall k | 0 <= k < |order| ensures RenamedRules(names, order)[k] == order[k] {
      assert RenamedIds(names, order[k].sources) == order[k].sources;
    }
  }

  ghost predicate AllDifferent(meters: map<MeterId, PowerMeter>) {
    forall a, b :: a in meters && b in meters && a != b ==> meters[a] != meters[b]
  }

  lemma Registered(ids: seq<MeterId>, meters: map<MeterId, PowerMeter>, id: MeterId, meter: PowerMeter)
    requires Distinct(ids) && Elements(ids) == meters.Keys && id !in meters
    ensures var more := meters[id := meter];
            && Distinct(ids + [id]) && Elements(ids + [id]) == more.Keys
            && (AllDifferent(more) <==> AllDifferent(meters) && meter !in meters.Values)
  {
    var more := meters[id := meter];
    assert forall m :: m in ids ==> m in Elements(ids);
    assert forall a :: a in meters ==> meters[a] in meters.Values && more[a] == meters[a] && more[id] == meter;
    if AllDifferent(more) {
      forall a, b | a in meters && b in meters && a != b ensures meters[a] != meters[b] {
        assert more[a] != more[b];
      }
    }
  }

  lemma WiredMore(meters: set<MeterId>, id: MeterId, rules: seq<Rule>)
    requires Wired(meters, rules)
    ensures Wired(meters + {id}, rules)
  {}

  lemma {:induction false} FindPresent(ds: seq<Device>, id: DeviceId)
    ensures Find(ds, id).Some? <==> exists d :: d in ds && d.id == id
  {
    if ds != [] { FindPresent(ds[1..], id); }
  }

  lemma OneMoreTarget(rules: seq<Rule>, rule: Rule)
    requires DistinctTargets(rules) && rule.target !in Targets(rules)
    ensures DistinctTargets(rules + [rule])
  {
    assert forall r :: r in rules ==> r.target in Targets(rules);
  }

  lemma OneMoreLink(fleet: Fleet, links: seq<Link>, i: nat, readings: map<MeterId, Power>)
    requires i < |links| && forall l :: l in links ==> l.meter in readings
    ensures Sources(links[..i + 1]) == Sources(links[..i]) + {links[i].source}
    ensures WithLinks(fleet, links[..i + 1], readings)
         == Added(WithLinks(fleet, links[..i], readings), links[i].meter, Delivered(fleet, links[i]))
  {
    assert links[..i + 1][..i] == links[..i] && links[..i + 1] == links[..i] + [links[i]];
    hide Delivered, Added, Fleet.All;
  }

  lemma EvaluatedNext(order: seq<Rule>, i: nat, readings: map<MeterId, Power>)
    requires i < |order| && Wired(readings.Keys, order)
    ensures Wired(readings.Keys, [order[i]]) && Wired(readings.Keys, order[..i]) && Wired(readings.Keys, order[..i + 1])
    ensures var before := Evaluated(order[..i], readings);
      Evaluated(order[..i + 1], readings) == before[order[i].target := TotalOf(before, order[i].sources)]
  {
    assert order[..i + 1][..i] == order[..i];
    hide TotalOf;
  }

  lemma ZeroAt(ids: set<MeterId>)
    ensures ZeroReadings(ids).Keys == ids && forall m :: m in ids ==> ZeroReadings(ids)[m] == Zero()
  {}

  lemma OneMoreTerm(readings: map<MeterId, Power>, ms: seq<MeterId>, i: nat)
    requires i < |ms| && forall m :: m in ms ==> m in readings
    ensures forall m :: m in ms[..i + 1] ==> m in readings
    ensures TotalOf(readings, ms[..i + 1]) == Plus(TotalOf(readings, ms[..i]), readings[ms[i]])
  {
    assert ms[..i + 1][..i] == ms[..i];
    hide Plus;
  }

  lemma SettledSolves(rules: seq<Rule>, order: seq<Rule>, base: map<MeterId, Power>, raw: map<MeterId, Power>)
    requires Topological(rules, order) && Wired(base.Keys, rules) && Wired(base.Keys, order)
    requires raw == Evaluated(order, base)
    ensures Solves(rules, base, raw)
  {
    PassSolves(order, base);
    assert Targets(order) == Targets(rules);
  }
}
