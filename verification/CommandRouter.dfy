/** The router object, with the registry it shares with the reconciler. */
module CommandRouters {
  import opened Numeric
  import opened RouterModel

  class CommandRouter {
    const env: Accepts
    const mappings: seq<Mapping>
    const capabilityMappings: seq<Mapping>
    var devices: map<DeviceId, Device>
    var members: map<Trait, seq<DeviceId>>
    /** All registered devices, in id order. */
    var roster: seq<DeviceId>
    var lastWritten: Table
    var attempts: nat
    /** What the devices accepted, as seen from outside. */
    var log: seq<Entry>

    function View(): World
      reads this
    {
      World(devices, members, roster, lastWritten, attempts, log)
    }

    function All(): seq<Mapping> {
      mappings + capabilityMappings
    }

    constructor (env: Accepts, mappings: seq<Mapping>, capabilityMappings: seq<Mapping>)
      requires forall m :: m in mappings ==> !m.target.Capable?
      requires forall m :: m in capabilityMappings ==> m.target.Capable?
      ensures this.env == env && this.mappings == mappings && this.capabilityMappings == capabilityMappings
      ensures View() == Initial()
    {
      this.env, this.mappings, this.capabilityMappings := env, mappings, capabilityMappings;
      devices, members, roster, lastWritten, attempts, log := map[], map[], [], map[], 0, [];
    }

    /** `_safe_write` followed by `_record_written` on success. */
    method WriteAndRecord(d: DeviceId, p: Point, v: Value) returns (ok: bool)
      requires d in devices
      modifies this
      ensures View() == Tried(env, old(View()), d, p, v) && ok == env(old(attempts), d, p, v)
    {
      ok := env(attempts, d, p, v);
      attempts := attempts + 1;
      if ok {
        devices := devices[d := devices[d].(latest := devices[d].latest[p := v])];
        log := log + [Wrote(d, p, v)];
        var points := if d in lastWritten then lastWritten[d] else map[];
        lastWritten := lastWritten[d := points[p := v]];
      }
    }

    method TryWriteSingle(d: DeviceId, p: Point, v: Value) returns (ok: bool)
      modifies this
      ensures View() == WriteSingle(env, old(View()), d, p, v)
      ensures ok <==> Succeeds(env, old(View()), d, p, v)
    {
      if v == NoChange {
        return false;
      }
      if d !in devices {
        return false;
      }
      if devices[d].protected {
        return false;
      }
      if !devices[d].responsive {
        return false;
      }
      ok := WriteAndRecord(d, p, v);
    }

    /** One device after the other, each with what is meant for it, where it can be written. */
    method WriteDevices(ids: seq<DeviceId>, at: Where, what: Payload)
      modifies this
      ensures View() == WriteAll(env, old(View()), ids, at, what)
    {
      hide Tried;
      var i := 0;
      while i < |ids|
        invariant i <= |ids| && View() == WriteAll(env, old(View()), ids[..i], at, what)
      {
        assert ids[..i + 1][..i] == ids[..i];
        if ids[i] in devices && devices[ids[i]].responsive && !devices[ids[i]].protected {
          var point, value := Resolved(devices[ids[i]], at), what.For(ids[i]);
          if point.Some? && value.Some? {
            var _ := WriteAndRecord(ids[i], point.value, value.value);
          }
        }
        i := i + 1;
      }
      assert ids[..i] == ids;
    }

    method WriteTraitBroadcast(t: Trait, p: Point, what: Payload)
      modifies this
      ensures View() == WriteAll(env, old(View()), Members(old(View()), t), At(p), what)
    {
      WriteDevices(if t in members then members[t] else [], At(p), what);
    }

    /** `_write_capability_single`: unlike `try_write_single` it lets NO_CHANGE through. */
    method WriteCapabilitySingle(d: DeviceId, slot: Slot, what: Payload)
      modifies this
      ensures View() == WriteAll(env, old(View()), [d], Bound(slot), what)
    {
      assert [d][..0] == [] && WriteAll(env, View(), [d][..0], Bound(slot), what) == View();
      if d !in devices || devices[d].protected || !devices[d].responsive || slot !in devices[d].bindings {
        return;
      }
      if what.For(d).Some? {
        var _ := WriteAndRecord(d, devices[d].bindings[slot], what.For(d).value);
      }
    }

    method WriteCapabilityTrait(t: Trait, slot: Slot, what: Payload)
      modifies this
      ensures View() == WriteAll(env, old(View()), Members(old(View()), t), Bound(slot), what)
    {
      WriteDevices(if t in members then members[t] else [], Bound(slot), what);
    }

    method WriteCapabilityAuto(slot: Slot, what: Payload)
      modifies this
      ensures View() == WriteAll(env, old(View()), old(roster), Bound(slot), what)
    {
      WriteDevices(roster, Bound(slot), what);
    }

    /** `route`, and `route_per_device` when the call has a command for each device. */
    method Route(call: Call)
      modifies this
      ensures View() == RoutedAll(env, old(View()), All(), call)
    {
      hide Routed;
      var all := mappings + capabilityMappings;
      var i := 0;
      while i < |all|
        invariant i <= |all| && View() == RoutedAll(env, old(View()), all[..i], call)
      {
        assert all[..i + 1][..i] == all[..i];
        RouteOne(all[i], call);
        i := i + 1;
      }
      assert all[..i] == all;
    }

    method RouteOne(m: Mapping, call: Call)
      modifies this
      ensures View() == Routed(env, old(View()), m, call)
    {
      hide WriteAll, Tried, Mapping.Made;
      match m.target
      case Single(d, p) =>
        var v := m.Made(call.command);
        if v.Some? {
          var _ := TryWriteSingle(d, p, v.value);
        }
      case Broadcast(t, p) => WriteTraitBroadcast(t, p, m.Output(call));
      case Capable(One(d), slot) => WriteCapabilitySingle(d, slot, m.Output(call));
      case Capable(OfTrait(t), slot) => WriteCapabilityTrait(t, slot, m.Output(call));
      case Capable(Everyone, slot) => WriteCapabilityAuto(slot, m.Output(call));
    }

    /** The registry's `unregister`, with `_on_device_unregistered` as its observer. */
    method UnregisterDevice(d: DeviceId)
      modifies this
      ensures View() == Unregistered(old(View()), d)
    {
      if d !in devices {
        return;
      }
      devices := devices - {d};
      members := map t | t in members :: Without(members[t], d);
      roster := Without(roster, d);
      log := log + [Removed(d)];
      lastWritten := lastWritten - {d};
    }

    /** Devices registered, read or changing status between two steps. */
    method Observed(devices: map<DeviceId, Device>, members: map<Trait, seq<DeviceId>>, roster: seq<DeviceId>)
      modifies this
      ensures View() == old(View()).(devices := devices, members := members, roster := roster)
    {
      this.devices, this.members, this.roster := devices, members, roster;
    }

    /** Any sequence of calls on the object, with devices coming and going in between. */
    method Live(steps: seq<Step>)
      modifies this
      ensures View() == Run(env, All(), old(View()), steps)
    {
      var i := 0;
      while i < |steps|
        invariant i <= |steps| && View() == Run(env, All(), old(View()), steps[..i])
      {
        assert steps[..i + 1][..i] == steps[..i];
        match steps[i] {
          case Route(call) => Route(call);
          case Write(d, p, v) =>
            var _ := TryWriteSingle(d, p, v);
          case Unregister(d) => UnregisterDevice(d);
          case Observe(seen, groups, all) => Observed(seen, groups, all);
        }
        i := i + 1;
      }
      assert steps[..i] == steps;
    }
  }
}
