/** The table is the record of the last accepted writes, and when it can hold NO_CHANGE. */
module RouterLaws {
  import opened Numeric
  import opened RouterModel

  /** The table answers every lookup with the last accepted write. */
  ghost predicate Faithful(w: World) {
    forall d, p :: Desired(w.table, d, p) == LastWrite(w.log, d, p)
  }

  lemma RecordedAt(t: Table, d: DeviceId, p: Point, v: Value, e: DeviceId, q: Point)
    ensures Desired(Recorded(t, d, p, v), e, q) == if e == d && q == p then Some(v) else Desired(t, e, q)
  {}

  lemma LastWriteAppend(log: seq<Entry>, x: Entry, d: DeviceId, p: Point)
    ensures LastWrite(log + [x], d, p) ==
      match x
      case Wrote(e, q, v) => if e == d && q == p then Some(v) else LastWrite(log, d, p)
      case Removed(e) => if e == d then None else LastWrite(log, d, p)
  {
    assert (log + [x])[..|log|] == log;
  }

  lemma TriedFaithful(env: Accepts, w: World, d: DeviceId, p: Point, v: Value)
    requires Faithful(w) && d in w.devices
    ensures Faithful(Tried(env, w, d, p, v))
  {
    hide Recorded, Desired, LastWrite;
    if env(w.attempts, d, p, v) {
      forall e, q ensures Desired(Recorded(w.table, d, p, v), e, q) == LastWrite(w.log + [Wrote(d, p, v)], e, q) {
        RecordedAt(w.table, d, p, v, e, q);
        LastWriteAppend(w.log, Wrote(d, p, v), e, q);
      }
    }
  }

  lemma {:induction false} WriteAllFaithful(env: Accepts, w: World, ids: seq<DeviceId>, at: Where, what: Payload)
    requires Faithful(w)
    ensures Faithful(WriteAll(env, w, ids, at, what))
  {
    hide Faithful, Tried;
    if ids != [] {
      WriteAllFaithful(env, w, ids[..|ids| - 1], at, what);
      var before, d := WriteAll(env, w, ids[..|ids| - 1], at, what), ids[|ids| - 1];
      if Addressed(before, d, at, what) {
        TriedFaithful(env, before, d, Resolved(before.devices[d], at).value, what.For(d).value);
      }
    }
  }

  lemma RoutedFaithful(env: Accepts, w: World, m: Mapping, call: Call)
    requires Faithful(w)
    ensures Faithful(Routed(env, w, m, call))
  {
    hide Faithful, Tried, WriteAll;
    if !m.target.Single? {
      WriteAllFaithful(env, w, Addressees(w, m.target), Spot(m.target), m.Output(call));
    } else if m.Made(call.command).Some? && Reachable(w, m.target.device) {
      TriedFaithful(env, w, m.target.device, m.target.point, m.Made(call.command).value);
    }
  }

  lemma {:induction false} RoutedAllFaithful(env: Accepts, w: World, ms: seq<Mapping>, call: Call)
    requires Faithful(w)
    ensures Faithful(RoutedAll(env, w, ms, call))
  {
    hide Faithful, Routed;
    if ms != [] {
      RoutedAllFaithful(env, w, ms[..|ms| - 1], call);
      RoutedFaithful(env, RoutedAll(env, w, ms[..|ms| - 1], call), ms[|ms| - 1], call);
    }
  }

  lemma UnregisteredFaithful(w: World, d: DeviceId)
    requires Faithful(w)
    ensures Faithful(Unregistered(w, d))
  {
    if d in w.devices {
      forall e, q ensures Desired(w.table - {d}, e, q) == LastWrite(w.log + [Removed(d)], e, q) {
        LastWriteAppend(w.log, Removed(d), e, q);
        assert Desired(w.table, e, q) == LastWrite(w.log, e, q);
      }
    }
  }

  lemma NextFaithful(env: Accepts, ms: seq<Mapping>, w: World, s: Step)
    requires Faithful(w)
    ensures Faithful(Next(env, ms, w, s))
  {
    match s
    case Route(call) => RoutedAllFaithful(env, w, ms, call);
    case Write(d, p, v) =>
      if !v.NoChange? && Reachable(w, d) { TriedFaithful(env, w, d, p, v); }
    case Unregister(d) => UnregisteredFaithful(w, d);
    case Observe(_, _, _) =>
  }

  /** After any run the table maps each point to the last value its device accepted. */
  lemma {:induction false} TableIsLastWrites(env: Accepts, ms: seq<Mapping>, steps: seq<Step>, d: DeviceId, p: Point)
    ensures Faithful(Run(env, ms, Initial(), steps))
    ensures var w := Run(env, ms, Initial(), steps); Desired(w.table, d, p) == LastWrite(w.log, d, p)
  {
    hide Next;
    if steps != [] {
      TableIsLastWrites(env, ms, steps[..|steps| - 1], d, p);
      NextFaithful(env, ms, Run(env, ms, Initial(), steps[..|steps| - 1]), steps[|steps| - 1]);
    }
  }

  // ---- NO_CHANGE ----

  ghost predicate Clean(w: World) {
    forall d, p :: Desired(w.table, d, p) != Some(NoChange)
  }

  lemma TriedClean(env: Accepts, w: World, d: DeviceId, p: Point, v: Value)
    requires Clean(w) && d in w.devices
    ensures Clean(Tried(env, w, d, p, v)) <==> !v.NoChange? || !env(w.attempts, d, p, v)
  {
    hide Recorded, Desired;
    if env(w.attempts, d, p, v) {
      RecordedAt(w.table, d, p, v, d, p);
      forall e, q ensures v != NoChange ==> Desired(Recorded(w.table, d, p, v), e, q) != Some(NoChange) {
        RecordedAt(w.table, d, p, v, e, q);
      }
    }
  }

  /** A device and point that hold NO_CHANGE keep it through a write of the same device's NO_CHANGE. */
  lemma StaysDirty(env: Accepts, w: World, d: DeviceId, p: Point, v: Value, e: DeviceId, q: Point)
    requires d in w.devices && Desired(w.table, e, q) == Some(NoChange) && (d == e ==> v.NoChange?)
    ensures Desired(Tried(env, w, d, p, v).table, e, q) == Some(NoChange)
  {
    RecordedAt(w.table, d, p, v, e, q);
    hide Recorded, Desired;
  }

  /** The same devices, reachable and bound alike, in the same groups. */
  ghost predicate Alike(w: World, u: World) {
    && u.members == w.members && u.roster == w.roster
    && (forall d :: d in w.devices <==> d in u.devices)
    && (forall d :: Reachable(w, d) <==> Reachable(u, d))
    && (forall d :: d in w.devices ==> u.devices[d].bindings == w.devices[d].bindings)
  }

  lemma TriedAlike(env: Accepts, w: World, d: DeviceId, p: Point, v: Value)
    requires d in w.devices
    ensures Alike(w, Tried(env, w, d, p, v))
  {
    hide Recorded;
  }

  lemma AlikeTrans(w: World, u: World, x: World)
    requires Alike(w, u) && Alike(u, x)
    ensures Alike(w, x)
  {
    hide Reachable;
  }

  lemma AlikeAddressed(w: World, u: World, d: DeviceId, at: Where, what: Payload)
    requires Alike(w, u)
    ensures Addressed(w, d, at, what) <==> Addressed(u, d, at, what)
    ensures Addressed(w, d, at, what) ==> Resolved(w.devices[d], at) == Resolved(u.devices[d], at)
  {}

  /** How many of the devices such a mapping tries. */
  function Tries(w: World, ids: seq<DeviceId>, at: Where, what: Payload): nat {
    if ids == [] then 0
    else Tries(w, ids[..|ids| - 1], at, what) + if Addressed(w, ids[|ids| - 1], at, what) then 1 else 0
  }

  /** The i-th device is tried, and takes what is meant for it. */
  predicate Takes(env: Accepts, w: World, ids: seq<DeviceId>, at: Where, what: Payload, i: nat)
    requires i < |ids|
  {
    && Addressed(w, ids[i], at, what)
    && env(w.attempts + Tries(w, ids[..i], at, what), ids[i], Resolved(w.devices[ids[i]], at).value,
           what.For(ids[i]).value)
  }

  /** Neither which devices are reachable nor how they are grouped changes, and the tries are counted. */
  lemma {:induction false} WriteAllKeeps(env: Accepts, w: World, ids: seq<DeviceId>, at: Where, what: Payload)
    ensures Alike(w, WriteAll(env, w, ids, at, what))
    ensures WriteAll(env, w, ids, at, what).attempts == w.attempts + Tries(w, ids, at, what)
  {
    if ids != [] {
      var before, d := WriteAll(env, w, ids[..|ids| - 1], at, what), ids[|ids| - 1];
      WriteAllKeeps(env, w, ids[..|ids| - 1], at, what);
      AlikeAddressed(w, before, d, at, what);
      if Addressed(before, d, at, what) {
        var p, v := Resolved(before.devices[d], at).value, what.For(d).value;
        TriedAlike(env, before, d, p, v);
        hide Alike, Addressed;
        AlikeTrans(w, before, Tried(env, before, d, p, v));
      }
    }
  }

  /** What a clean table can get NO_CHANGE from. */
  lemma {:induction false} DirtyBy(env: Accepts, w: World, ids: seq<DeviceId>, at: Where, what: Payload, e: DeviceId,
                                   q: Point)
    requires Clean(w) && Desired(WriteAll(env, w, ids, at, what).table, e, q) == Some(NoChange)
    ensures what.For(e) == Some(NoChange)
  {
    hide Recorded, Desired;
    if ids != [] {
      var before, d := WriteAll(env, w, ids[..|ids| - 1], at, what), ids[|ids| - 1];
      if Addressed(before, d, at, what) {
        RecordedAt(before.table, d, Resolved(before.devices[d], at).value, what.For(d).value, e, q);
      }
      if Desired(before.table, e, q) == Some(NoChange) {
        DirtyBy(env, w, ids[..|ids| - 1], at, what, e, q);
      }
    }
  }

  /** The last device of the list, on what the others left. */
  lemma LastCleanIff(env: Accepts, w: World, ids: seq<DeviceId>, at: Where, what: Payload)
    requires Clean(w) && ids != []
    ensures var before, d := WriteAll(env, w, ids[..|ids| - 1], at, what), ids[|ids| - 1];
      Clean(WriteAll(env, w, ids, at, what)) <==>
        && Clean(before)
        && (what.For(d) == Some(NoChange) ==>
              !(Addressed(before, d, at, what)
                && env(before.attempts, d, Resolved(before.devices[d], at).value, NoChange)))
  {
    var before, d := WriteAll(env, w, ids[..|ids| - 1], at, what), ids[|ids| - 1];
    if Addressed(before, d, at, what) {
      var p, v := Resolved(before.devices[d], at).value, what.For(d).value;
      if Clean(before) {
        TriedClean(env, before, d, p, v);
      } else {
        var e, q :| Desired(before.table, e, q) == Some(NoChange);
        DirtyBy(env, w, ids[..|ids| - 1], at, what, e, q);
        StaysDirty(env, before, d, p, v, e, q);
        assert !Clean(Tried(env, before, d, p, v));
      }
    }
  }

  /** A broadcast or capability mapping leaves NO_CHANGE in a clean table exactly when some device whose value is
      NO_CHANGE is tried and takes it. */
  lemma {:induction false} BroadcastCleanIff(env: Accepts, w: World, ids: seq<DeviceId>, at: Where, what: Payload)
    requires Clean(w)
    ensures Clean(WriteAll(env, w, ids, at, what)) <==>
      forall i :: 0 <= i < |ids| && what.For(ids[i]) == Some(NoChange) ==> !Takes(env, w, ids, at, what, i)
  {
    if ids != [] {
      var front, d := ids[..|ids| - 1], ids[|ids| - 1];
      var before := WriteAll(env, w, front, at, what);
      BroadcastCleanIff(env, w, front, at, what);
      WriteAllKeeps(env, w, front, at, what);
      LastCleanIff(env, w, ids, at, what);
      AlikeAddressed(w, before, d, at, what);
      hide Alike, Addressed, Clean, WriteAll;
      forall i | 0 <= i < |front| ensures Takes(env, w, front, at, what, i) <==> Takes(env, w, ids, at, what, i) {
        TakesFront(env, w, ids, at, what, i);
      }
      assert ids[..|front|] == front;
      assert Takes(env, w, ids, at, what, |front|) <==>
        && Addressed(before, d, at, what)
        && env(before.attempts, d, Resolved(before.devices[d], at).value, what.For(d).value);
      hide Takes, Payload.For, Resolved;
    }
  }

  lemma TakesFront(env: Accepts, w: World, ids: seq<DeviceId>, at: Where, what: Payload, i: nat)
    requires ids != [] && i < |ids| - 1
    ensures Takes(env, w, ids[..|ids| - 1], at, what, i) <==> Takes(env, w, ids, at, what, i)
  {
    assert ids[..|ids| - 1][..i] == ids[..i];
  }

  /** No unguarded mapping makes NO_CHANGE of its part of the call. */
  ghost predicate WritesValues(ms: seq<Mapping>, call: Call) {
    forall i, d :: 0 <= i < |ms| && !ms[i].target.Single? ==> ms[i].Output(call).For(d) != Some(NoChange)
  }

  lemma RoutedClean(env: Accepts, w: World, m: Mapping, call: Call)
    requires Clean(w) && WritesValues([m], call)
    ensures Clean(Routed(env, w, m, call))
  {
    assert [m][0] == m;
    hide Clean, Tried, WriteAll, Mapping.Output;
    if !m.target.Single? {
      BroadcastCleanIff(env, w, Addressees(w, m.target), Spot(m.target), m.Output(call));
    } else if m.Made(call.command).Some? && Reachable(w, m.target.device) {
      TriedClean(env, w, m.target.device, m.target.point, m.Made(call.command).value);
    }
  }

  lemma {:induction false} RoutedAllClean(env: Accepts, w: World, ms: seq<Mapping>, call: Call)
    requires Clean(w) && WritesValues(ms, call)
    ensures Clean(RoutedAll(env, w, ms, call))
  {
    hide Clean, Routed, Mapping.Output;
    if ms != [] {
      RoutedAllClean(env, w, ms[..|ms| - 1], call);
      RoutedClean(env, RoutedAll(env, w, ms[..|ms| - 1], call), ms[|ms| - 1], call);
    }
  }

  lemma NextClean(env: Accepts, ms: seq<Mapping>, w: World, s: Step)
    requires Clean(w) && (s.Route? ==> WritesValues(ms, s.call))
    ensures Clean(Next(env, ms, w, s))
  {
    match s
    case Route(call) => RoutedAllClean(env, w, ms, call);
    case Write(d, p, v) =>
      if !v.NoChange? && Reachable(w, d) { TriedClean(env, w, d, p, v); }
    case Unregister(d) =>
      assert forall e, q :: Desired(Unregistered(w, d).table, e, q).Some? ==>
        Desired(Unregistered(w, d).table, e, q) == Desired(w.table, e, q);
    case Observe(_, _, _) =>
  }

  /** If no unguarded mapping makes NO_CHANGE of a routed call, the table never holds NO_CHANGE. */
  lemma {:induction false} NeverNoChange(env: Accepts, ms: seq<Mapping>, steps: seq<Step>)
    requires forall i :: 0 <= i < |steps| && steps[i].Route? ==> WritesValues(ms, steps[i].call)
    ensures Clean(Run(env, ms, Initial(), steps))
  {
    hide Next, WritesValues;
    if steps != [] {
      NeverNoChange(env, ms, steps[..|steps| - 1]);
      NextClean(env, ms, Run(env, ms, Initial(), steps[..|steps| - 1]), steps[|steps| - 1]);
    }
  }

  /** A transformation to NO_CHANGE in a broadcast or capability mapping ends up in the table of any device that takes
      it: even where a capability mapping names a single device, unlike an explicit mapping that does. */
  lemma UnguardedRecordsNoChange(env: Accepts, w: World, m: Mapping, call: Call, d: DeviceId)
    requires !m.target.Single? && Addressees(w, m.target) == [d] && m.Output(call).For(d) == Some(NoChange)
    requires Reachable(w, d) && Resolved(w.devices[d], Spot(m.target)).Some?
    requires env(w.attempts, d, Resolved(w.devices[d], Spot(m.target)).value, NoChange)
    ensures Desired(Routed(env, w, m, call).table, d, Resolved(w.devices[d], Spot(m.target)).value) == Some(NoChange)
  {
    var p := Resolved(w.devices[d], Spot(m.target)).value;
    assert [d][..0] == [] && WriteAll(env, w, [d][..0], Spot(m.target), m.Output(call)) == w;
    assert Routed(env, w, m, call) == Tried(env, w, d, p, NoChange);
    RecordedAt(w.table, d, p, NoChange, d, p);
  }
}
