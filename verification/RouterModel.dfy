/** Routing commands to device points, and the table of desired values it leaves behind. A routing call is one
    atomic step. `World` holds the registry, the devices' cached readings, the table, and what devices accepted. */
module RouterModel {
  import opened Numeric

  datatype DeviceId = DeviceId(text: string)
  datatype Point = Point(text: string)
  datatype Trait = Trait(text: string)
  datatype Field = Field(text: string)

  /** A write slot of a capability. A device has the capability exactly if it binds its slots. */
  datatype Slot = Slot(capability: string, name: string)

  datatype Value = Num(r: real) | Flag(b: bool) | Text(s: string) | NoChange

  datatype Device = Device(responsive: bool, protected: bool, latest: map<Point, Value>, bindings: map<Slot, Point>)

  /** An accepted write, or the removal of a device. */
  datatype Entry = Wrote(d: DeviceId, p: Point, v: Value) | Removed(d: DeviceId)

  type Table = map<DeviceId, map<Point, Value>>

  /** `members` lists the devices of a trait in id order, `roster` all of them; `attempts` counts the writes tried. */
  datatype World = World(
    devices: map<DeviceId, Device>, members: map<Trait, seq<DeviceId>>, roster: seq<DeviceId>,
    table: Table, attempts: nat, log: seq<Entry>)

  /** Whether a device accepts a write attempt, or answers it with a device error. */
  type Accepts = (nat, DeviceId, Point, Value) -> bool

  /** Which devices a capability mapping writes: one, those of a trait, or all. */
  datatype Scope = One(device: DeviceId) | OfTrait(group: Trait) | Everyone

  /** A point of one device, a point of all devices of a trait, or the point each device binds to a slot. */
  datatype Target =
    | Single(device: DeviceId, point: Point)
    | Broadcast(group: Trait, point: Point)
    | Capable(scope: Scope, slot: Slot)

  type Command = map<Field, Value>

  /** What a routing call is given: the system's command, and with `route_per_device` one for each device too. */
  datatype Call = Call(command: Command, each: Option<map<DeviceId, Command>>)

  /** What a mapping writes: one value to every device, or each device its own, if any. */
  datatype Payload = Same(value: Value) | Each(values: map<DeviceId, Value>) {
    function For(d: DeviceId): Option<Value> {
      match this
      case Same(v) => Some(v)
      case Each(vs) => if d in vs then Some(vs[d]) else None
    }
  }

  /** A transformation that raises gives None. */
  datatype Mapping = Mapping(field: Field, target: Target, transform: Option<Value -> Option<Value>>) {
    function Transformed(v: Value): Option<Value> {
      if transform.None? then Some(v) else transform.value(v)
    }

    /** What the mapping makes of a command; None if it skips the field. */
    function Made(command: Command): Option<Value> {
      if field !in command || command[field].NoChange? then None else Transformed(command[field])
    }

    /** Only capability mappings heed the devices' own commands. */
    function Output(call: Call): Payload {
      if target.Capable? && call.each.Some? then
        Each(map d | d in call.each.value && Made(call.each.value[d]).Some? :: Made(call.each.value[d]).value)
      else if Made(call.command).Some? then Same(Made(call.command).value)
      else Each(map[])
    }
  }

  // ---- The table ----

  function Desired(t: Table, d: DeviceId, p: Point): Option<Value> {
    if d in t && p in t[d] then Some(t[d][p]) else None
  }

  /** `_record_written`. */
  function Recorded(t: Table, d: DeviceId, p: Point, v: Value): Table {
    t[d := (if d in t then t[d] else map[])[p := v]]
  }

  /** The last value a device accepted at a point, since it was last removed. */
  function LastWrite(log: seq<Entry>, d: DeviceId, p: Point): Option<Value> {
    if log == [] then None
    else
      match log[|log| - 1]
      case Wrote(e, q, v) => if e == d && q == p then Some(v) else LastWrite(log[..|log| - 1], d, p)
      case Removed(e) => if e == d then None else LastWrite(log[..|log| - 1], d, p)
  }

  // ---- Writing ----

  /** `_safe_write` and, if it succeeds, the record; the device's cache reflects the write. */
  function Tried(env: Accepts, w: World, d: DeviceId, p: Point, v: Value): World
    requires d in w.devices
  {
    if env(w.attempts, d, p, v) then
      World(w.devices[d := w.devices[d].(latest := w.devices[d].latest[p := v])], w.members, w.roster,
            Recorded(w.table, d, p, v), w.attempts + 1, w.log + [Wrote(d, p, v)])
    else w.(attempts := w.attempts + 1)
  }

  predicate Reachable(w: World, d: DeviceId) {
    d in w.devices && !w.devices[d].protected && w.devices[d].responsive
  }

  function WriteSingle(env: Accepts, w: World, d: DeviceId, p: Point, v: Value): World {
    if v.NoChange? || !Reachable(w, d) then w else Tried(env, w, d, p, v)
  }

  predicate Succeeds(env: Accepts, w: World, d: DeviceId, p: Point, v: Value) {
    !v.NoChange? && Reachable(w, d) && env(w.attempts, d, p, v)
  }

  /** Where a device is written: at a named point, or at the one it binds to a slot. */
  datatype Where = At(point: Point) | Bound(slot: Slot)

  function Resolved(device: Device, at: Where): Option<Point> {
    match at
    case At(p) => Some(p)
    case Bound(slot) => if slot in device.bindings then Some(device.bindings[slot]) else None
  }

  /** The device can be written there, and has something to be written. */
  predicate Addressed(w: World, d: DeviceId, at: Where, what: Payload) {
    Reachable(w, d) && Resolved(w.devices[d], at).Some? && what.For(d).Some?
  }

  /** Unlike `try_write_single` these paths do not look at the value. */
  function WriteAll(env: Accepts, w: World, ids: seq<DeviceId>, at: Where, what: Payload): World {
    if ids == [] then w
    else
      var before := WriteAll(env, w, ids[..|ids| - 1], at, what);
      var d := ids[|ids| - 1];
      if Addressed(before, d, at, what)
      then Tried(env, before, d, Resolved(before.devices[d], at).value, what.For(d).value) else before
  }

  function Members(w: World, t: Trait): seq<DeviceId> {
    if t in w.members then w.members[t] else []
  }

  function InScope(w: World, scope: Scope): seq<DeviceId> {
    match scope
    case One(d) => [d]
    case OfTrait(t) => Members(w, t)
    case Everyone => w.roster
  }

  /** The devices a broadcast or capability mapping goes through. */
  function Addressees(w: World, t: Target): seq<DeviceId>
    requires !t.Single?
  {
    match t
    case Broadcast(g, _) => Members(w, g)
    case Capable(scope, _) => InScope(w, scope)
  }

  function Spot(t: Target): Where
    requires !t.Single?
  {
    match t
    case Broadcast(_, p) => At(p)
    case Capable(_, slot) => Bound(slot)
  }

  function Routed(env: Accepts, w: World, m: Mapping, call: Call): World {
    if m.target.Single? then
      var v := m.Made(call.command);
      if v.None? then w else WriteSingle(env, w, m.target.device, m.target.point, v.value)
    else WriteAll(env, w, Addressees(w, m.target), Spot(m.target), m.Output(call))
  }

  /** The explicit mappings come first in `ms`, then those of capabilities. */
  function RoutedAll(env: Accepts, w: World, ms: seq<Mapping>, call: Call): World {
    if ms == [] then w
    else Routed(env, RoutedAll(env, w, ms[..|ms| - 1], call), ms[|ms| - 1], call)
  }

  /** The registry forgets the device, and its observer prunes the table. */
  function Unregistered(w: World, d: DeviceId): World {
    if d in w.devices then
      w.(devices := w.devices - {d}, members := map t | t in w.members :: Without(w.members[t], d),
         roster := Without(w.roster, d), table := w.table - {d}, log := w.log + [Removed(d)])
    else w
  }

  function Without(ids: seq<DeviceId>, d: DeviceId): seq<DeviceId> {
    if ids == [] then []
    else Without(ids[..|ids| - 1], d) + if ids[|ids| - 1] == d then [] else [ids[|ids| - 1]]
  }

  // ---- Whole runs ----

  /** Between steps devices may come, change status or be read anew; none of that touches table or log. */
  datatype Step =
    | Route(call: Call)
    | Write(d: DeviceId, p: Point, v: Value)
    | Unregister(d: DeviceId)
    | Observe(devices: map<DeviceId, Device>, members: map<Trait, seq<DeviceId>>, roster: seq<DeviceId>)

  function Next(env: Accepts, ms: seq<Mapping>, w: World, s: Step): World {
    match s
    case Route(call) => RoutedAll(env, w, ms, call)
    case Write(d, p, v) => WriteSingle(env, w, d, p, v)
    case Unregister(d) => Unregistered(w, d)
    case Observe(devices, members, roster) => w.(devices := devices, members := members, roster := roster)
  }

  function Run(env: Accepts, ms: seq<Mapping>, w: World, steps: seq<Step>): World {
    if steps == [] then w else Next(env, ms, Run(env, ms, w, steps[..|steps| - 1]), steps[|steps| - 1])
  }

  function Initial(): World {
    World(map[], map[], [], map[], 0, [])
  }
}
