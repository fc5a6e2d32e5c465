/** The attempts of a routing call, known before it begins, and exactly when the call leaves NO_CHANGE in the table. */
module RouterPlan {
  import opened Numeric
  import opened RouterModel
  import opened RouterLaws

  datatype Attempt = Attempt(d: DeviceId, p: Point, v: Value)

  // ---- What a call will try ----

  function UnguardedPlan(w: World, ids: seq<DeviceId>, at: Where, what: Payload): seq<Attempt> {
    if ids == [] then []
    else
      var d := ids[|ids| - 1];
      UnguardedPlan(w, ids[..|ids| - 1], at, what) +
      if Addressed(w, d, at, what) then [Attempt(d, Resolved(w.devices[d], at).value, what.For(d).value)] else []
  }

  function MappingPlan(w: World, m: Mapping, call: Call): seq<Attempt> {
    if m.target.Single? then
      var v := m.Made(call.command);
      if v.None? || v.value.NoChange? || !Reachable(w, m.target.device) then []
      else [Attempt(m.target.device, m.target.point, v.value)]
    else UnguardedPlan(w, Addressees(w, m.target), Spot(m.target), m.Output(call))
  }

  /** Every write the call will attempt, in order: it depends on the devices' status only, not on their answers. */
  function Plan(w: World, ms: seq<Mapping>, call: Call): seq<Attempt> {
    if ms == [] then [] else Plan(w, ms[..|ms| - 1], call) + MappingPlan(w, ms[|ms| - 1], call)
  }

  /** The attempts of a plan, one after the other. */
  function Played(env: Accepts, w: World, plan: seq<Attempt>): World {
    if plan == [] then w
    else
      var before, a := Played(env, w, plan[..|plan| - 1]), plan[|plan| - 1];
      if a.d in before.devices then Tried(env, before, a.d, a.p, a.v) else before
  }

  lemma {:induction false} PlayedAlike(env: Accepts, w: World, plan: seq<Attempt>)
    ensures Alike(w, Played(env, w, plan))
  {
    if plan != [] {
      var before, a := Played(env, w, plan[..|plan| - 1]), plan[|plan| - 1];
      PlayedAlike(env, w, plan[..|plan| - 1]);
      if a.d in before.devices {
        TriedAlike(env, before, a.d, a.p, a.v);
        hide Alike, Tried;
        AlikeTrans(w, before, Played(env, w, plan));
      }
    }
  }

  lemma {:induction false} PlayedAppend(env: Accepts, w: World, a: seq<Attempt>, b: seq<Attempt>)
    ensures Played(env, w, a + b) == Played(env, Played(env, w, a), b)
  {
    if b == [] {
      assert a + b == a;
    } else {
      assert (a + b)[..|a + b| - 1] == a + b[..|b| - 1];
      PlayedAppend(env, w, a, b[..|b| - 1]);
    }
  }

  lemma {:induction false} UnguardedIsPlan(env: Accepts, w: World, ids: seq<DeviceId>, at: Where, what: Payload)
    ensures WriteAll(env, w, ids, at, what) == Played(env, w, UnguardedPlan(w, ids, at, what))
  {
    if ids != [] {
      var front, d := ids[..|ids| - 1], ids[|ids| - 1];
      var plan := UnguardedPlan(w, front, at, what);
      UnguardedIsPlan(env, w, front, at, what);
      PlayedAlike(env, w, plan);
      AlikeAddressed(w, Played(env, w, plan), d, at, what);
      if Addressed(w, d, at, what) {
        var a := Attempt(d, Resolved(w.devices[d], at).value, what.For(d).value);
        PlayedAppend(env, w, plan, [a]);
        PlayedOne(env, Played(env, w, plan), a);
        hide Tried, Played, Alike;
      } else {
        hide Tried, Played, Alike;
        assert plan + [] == plan;
      }
    }
  }

  lemma PlayedOne(env: Accepts, w: World, a: Attempt)
    ensures Played(env, w, [a]) == if a.d in w.devices then Tried(env, w, a.d, a.p, a.v) else w
  {
    assert [a][..0] == [];
  }

  lemma {:induction false} SamePlan(w: World, u: World, ids: seq<DeviceId>, at: Where, what: Payload)
    requires Alike(w, u)
    ensures UnguardedPlan(w, ids, at, what) == UnguardedPlan(u, ids, at, what)
  {
    hide Alike, Addressed;
    if ids != [] {
      SamePlan(w, u, ids[..|ids| - 1], at, what);
      AlikeAddressed(w, u, ids[|ids| - 1], at, what);
    }
  }

  lemma SameAddressees(w: World, u: World, t: Target)
    requires Alike(w, u) && !t.Single?
    ensures Addressees(w, t) == Addressees(u, t)
  {}

  /** A mapping plays its plan, also if that was made before other mappings wrote. */
  lemma RoutedIsPlan(env: Accepts, w: World, u: World, m: Mapping, call: Call)
    requires Alike(w, u)
    ensures Routed(env, u, m, call) == Played(env, u, MappingPlan(w, m, call))
  {
    hide Tried, WriteAll, UnguardedPlan, Mapping.Output, Mapping.Made;
    if m.target.Single? {
      var v := m.Made(call.command);
      if v.Some? {
        PlayedOne(env, u, Attempt(m.target.device, m.target.point, v.value));
      }
    } else {
      SameAddressees(w, u, m.target);
      SamePlan(w, u, Addressees(w, m.target), Spot(m.target), m.Output(call));
      UnguardedIsPlan(env, u, Addressees(w, m.target), Spot(m.target), m.Output(call));
    }
  }

  /** A routing call does nothing but play its plan. */
  lemma {:induction false} CallIsPlan(env: Accepts, w: World, ms: seq<Mapping>, call: Call)
    ensures RoutedAll(env, w, ms, call) == Played(env, w, Plan(w, ms, call))
  {
    hide Routed, MappingPlan, Alike;
    if ms != [] {
      var front, m := ms[..|ms| - 1], ms[|ms| - 1];
      CallIsPlan(env, w, front, call);
      PlayedAlike(env, w, Plan(w, front, call));
      RoutedIsPlan(env, w, RoutedAll(env, w, front, call), m, call);
      PlayedAppend(env, w, Plan(w, front, call), MappingPlan(w, m, call));
    }
  }

  // ---- What the table holds afterwards ----

  ghost predicate Known(w: World, plan: seq<Attempt>) {
    forall k :: 0 <= k < |plan| ==> plan[k].d in w.devices
  }

  lemma {:induction false} UnguardedKnown(w: World, ids: seq<DeviceId>, at: Where, what: Payload)
    ensures Known(w, UnguardedPlan(w, ids, at, what))
  {
    if ids != [] { UnguardedKnown(w, ids[..|ids| - 1], at, what); }
  }

  lemma {:induction false} PlanKnown(w: World, ms: seq<Mapping>, call: Call)
    ensures Known(w, Plan(w, ms, call))
  {
    hide Mapping.Output, Mapping.Made, UnguardedPlan;
    if ms != [] {
      PlanKnown(w, ms[..|ms| - 1], call);
      var m := ms[|ms| - 1];
      if !m.target.Single? {
        UnguardedKnown(w, Addressees(w, m.target), Spot(m.target), m.Output(call));
      }
    }
  }

  /** Attempt k of the plan is a write to this point that the device accepts. */
  predicate Hits(env: Accepts, w: World, plan: seq<Attempt>, k: nat, d: DeviceId, p: Point)
    requires k < |plan|
  {
    plan[k].d == d && plan[k].p == p && env(w.attempts + k, d, p, plan[k].v)
  }

  ghost predicate LastHit(env: Accepts, w: World, plan: seq<Attempt>, k: nat, d: DeviceId, p: Point) {
    k < |plan| && Hits(env, w, plan, k, d, p) && forall j :: k < j < |plan| ==> !Hits(env, w, plan, j, d, p)
  }

  /** The last attempt of a plan, on what the others left. */
  lemma PlayedStep(env: Accepts, w: World, plan: seq<Attempt>, d: DeviceId, p: Point)
    requires Known(w, plan) && plan != []
    ensures var before, a := Played(env, w, plan[..|plan| - 1]), plan[|plan| - 1];
      && Played(env, w, plan).attempts == before.attempts + 1
      && Desired(Played(env, w, plan).table, d, p) ==
           if a.d == d && a.p == p && env(before.attempts, d, p, a.v) then Some(a.v) else Desired(before.table, d, p)
  {
    var a := plan[|plan| - 1];
    PlayedAlike(env, w, plan[..|plan| - 1]);
    RecordedAt(Played(env, w, plan[..|plan| - 1]).table, a.d, a.p, a.v, d, p);
    hide Recorded, Desired;
  }

  lemma LastHitNext(env: Accepts, w: World, plan: seq<Attempt>, k: nat, d: DeviceId, p: Point)
    requires plan != []
    requires var front := plan[..|plan| - 1];
      LastHit(env, w, front, k, d, p) || forall j :: 0 <= j < |front| ==> !Hits(env, w, front, j, d, p)
    ensures Hits(env, w, plan, |plan| - 1, d, p) ==> LastHit(env, w, plan, |plan| - 1, d, p)
    ensures !Hits(env, w, plan, |plan| - 1, d, p) ==>
      && (LastHit(env, w, plan, k, d, p) <==> LastHit(env, w, plan[..|plan| - 1], k, d, p))
      && (LastHit(env, w, plan, k, d, p) || forall j :: 0 <= j < |plan| ==> !Hits(env, w, plan, j, d, p))
  {
    forall j | 0 <= j < |plan| - 1
      ensures Hits(env, w, plan[..|plan| - 1], j, d, p) <==> Hits(env, w, plan, j, d, p)
    {}
  }

  /** The table holds the value of the last hit, or what it held before. */
  lemma {:induction false} PlayedAt(env: Accepts, w: World, plan: seq<Attempt>, d: DeviceId, p: Point) returns (k: nat)
    requires Known(w, plan)
    ensures Played(env, w, plan).attempts == w.attempts + |plan|
    ensures LastHit(env, w, plan, k, d, p) || forall j :: 0 <= j < |plan| ==> !Hits(env, w, plan, j, d, p)
    ensures Desired(Played(env, w, plan).table, d, p) ==
      if LastHit(env, w, plan, k, d, p) then Some(plan[k].v) else Desired(w.table, d, p)
  {
    if plan == [] {
      k := 0;
    } else {
      var front, a := plan[..|plan| - 1], plan[|plan| - 1];
      k := PlayedAt(env, w, front, d, p);
      PlayedStep(env, w, plan, d, p);
      LastHitNext(env, w, plan, k, d, p);
      hide Played, Desired, LastHit;
      if Hits(env, w, plan, |plan| - 1, d, p) {
        k := |plan| - 1;
      } else if LastHit(env, w, front, k, d, p) {
        assert LastHit(env, w, plan, k, d, p);
      }
    }
  }

  /** A later attempt of the plan hits the same point. */
  ghost predicate Overwritten(env: Accepts, w: World, plan: seq<Attempt>, k: nat)
    requires k < |plan|
  {
    exists j :: k < j < |plan| && Hits(env, w, plan, j, plan[k].d, plan[k].p)
  }

  ghost predicate LeavesNoChange(env: Accepts, w: World, plan: seq<Attempt>, k: nat)
    requires k < |plan|
  {
    plan[k].v.NoChange? && Hits(env, w, plan, k, plan[k].d, plan[k].p) && !Overwritten(env, w, plan, k)
  }

  /** A call leaves NO_CHANGE in a clean table exactly when its plan has an attempt with NO_CHANGE that is accepted
      and no later accepted attempt at the same point. */
  lemma CallCleanIff(env: Accepts, w: World, ms: seq<Mapping>, call: Call)
    requires Clean(w)
    ensures var plan := Plan(w, ms, call);
      Clean(RoutedAll(env, w, ms, call)) <==> forall k :: 0 <= k < |plan| ==> !LeavesNoChange(env, w, plan, k)
  {
    CallIsPlan(env, w, ms, call);
    PlanKnown(w, ms, call);
    hide Plan, RoutedAll, Played, Desired;
    var plan := Plan(w, ms, call);
    var after := Played(env, w, plan);
    forall k | 0 <= k < |plan| && LeavesNoChange(env, w, plan, k) ensures !Clean(after) {
      var j := PlayedAt(env, w, plan, plan[k].d, plan[k].p);
      assert LastHit(env, w, plan, j, plan[k].d, plan[k].p) && j == k;
      assert Desired(after.table, plan[k].d, plan[k].p) == Some(NoChange);
    }
    if d, p :| Desired(after.table, d, p) == Some(NoChange) {
      var k := PlayedAt(env, w, plan, d, p);
      assert LastHit(env, w, plan, k, d, p);
      assert LeavesNoChange(env, w, plan, k);
    }
  }

  // ---- When no run can ever leave NO_CHANGE ----

  /** No broadcast and no capability mapping makes NO_CHANGE of a command. */
  ghost predicate MakesValues(ms: seq<Mapping>, command: Command) {
    forall i :: 0 <= i < |ms| && !ms[i].target.Single? ==> ms[i].Made(command) != Some(NoChange)
  }

  lemma MakesWrites(ms: seq<Mapping>, call: Call)
    requires forall command :: MakesValues(ms, command)
    ensures WritesValues(ms, call)
  {
    hide Mapping.Made;
    forall i, d | 0 <= i < |ms| && !ms[i].target.Single? ensures ms[i].Output(call).For(d) != Some(NoChange) {
      assert MakesValues(ms, call.command);
      if call.each.Some? && d in call.each.value {
        assert MakesValues(ms, call.each.value[d]);
      }
    }
  }

  lemma {:induction false} PlanContains(w: World, ms: seq<Mapping>, call: Call, i: nat, d: DeviceId, p: Point)
    requires i < |ms| && !ms[i].target.Single? && ms[i].Output(call).For(d) == Some(NoChange)
    requires Addressees(w, ms[i].target) == [d] && Reachable(w, d)
    requires Resolved(w.devices[d], Spot(ms[i].target)) == Some(p)
    ensures Attempt(d, p, NoChange) in Plan(w, ms, call)
  {
    hide Mapping.Output, Mapping.Made;
    if i < |ms| - 1 {
      PlanContains(w, ms[..|ms| - 1], call, i, d, p);
    } else {
      var at, what := Spot(ms[i].target), ms[i].Output(call);
      assert [d][..0] == [] && UnguardedPlan(w, [d][..0], at, what) == [];
      assert UnguardedPlan(w, [d], at, what) == [Attempt(d, p, NoChange)];
    }
  }

  /** Devices that accept NO_CHANGE and nothing else. */
  const ONLY_NO_CHANGE: Accepts := (n: nat, d: DeviceId, p: Point, v: Value) => v.NoChange?

  lemma CallDirties(w: World, ms: seq<Mapping>, call: Call, i: nat, d: DeviceId, p: Point)
    requires i < |ms| && !ms[i].target.Single? && ms[i].Output(call).For(d) == Some(NoChange)
    requires Addressees(w, ms[i].target) == [d] && Reachable(w, d)
    requires Resolved(w.devices[d], Spot(ms[i].target)) == Some(p)
    ensures !Clean(RoutedAll(ONLY_NO_CHANGE, w, ms, call))
  {
    var plan := Plan(w, ms, call);
    PlanContains(w, ms, call, i, d, p);
    PlanKnown(w, ms, call);
    CallIsPlan(ONLY_NO_CHANGE, w, ms, call);
    hide Plan, RoutedAll, Played, Desired;
    var j :| 0 <= j < |plan| && plan[j] == Attempt(d, p, NoChange);
    assert Hits(ONLY_NO_CHANGE, w, plan, j, d, p);
    var k := PlayedAt(ONLY_NO_CHANGE, w, plan, d, p);
    assert Desired(Played(ONLY_NO_CHANGE, w, plan).table, d, p) == Some(NoChange);
  }

  /** The device the mapping names, or any. */
  function Victim(t: Target): DeviceId {
    if t.Capable? && t.scope.One? then t.scope.device else DeviceId("d")
  }

  /** One device joins, in the mapping's group and with its slot bound; then the command is routed. */
  function DirtySteps(t: Target, command: Command): seq<Step> {
    var d := Victim(t);
    var bindings := if t.Capable? then map[t.slot := Point("p")] else map[];
    var members := if t.Broadcast? then map[t.group := [d]]
                   else if t.Capable? && t.scope.OfTrait? then map[t.scope.group := [d]] else map[];
    [Observe(map[d := Device(true, false, map[], bindings)], members, [d]), Route(Call(command, None))]
  }

  lemma DirtyRun(ms: seq<Mapping>, command: Command, i: nat)
    requires i < |ms| && !ms[i].target.Single? && ms[i].Made(command) == Some(NoChange)
    ensures !Clean(Run(ONLY_NO_CHANGE, ms, Initial(), DirtySteps(ms[i].target, command)))
  {
    hide Clean, RoutedAll, Mapping.Made;
    var t := ms[i].target;
    var steps := DirtySteps(t, command);
    assert steps[..1] == [steps[0]] && steps[..1][..0] == [];
    var w := Next(ONLY_NO_CHANGE, ms, Initial(), steps[0]);
    assert Run(ONLY_NO_CHANGE, ms, Initial(), steps[..1]) == w;
    CallDirties(w, ms, Call(command, None), i, Victim(t), if t.Capable? then Point("p") else t.point);
  }

  /** The table is free of NO_CHANGE after every run, whatever the devices answer, exactly when no broadcast and no
      capability mapping makes NO_CHANGE of any command. */
  lemma NeverNoChangeIff(ms: seq<Mapping>)
    ensures (forall env: Accepts, steps :: Clean(Run(env, ms, Initial(), steps)))
       <==> (forall command :: MakesValues(ms, command))
  {
    hide Clean, Run, Mapping.Made;
    if command :| !MakesValues(ms, command) {
      var i :| 0 <= i < |ms| && !ms[i].target.Single? && ms[i].Made(command) == Some(NoChange);
      DirtyRun(ms, command, i);
    } else {
      forall env: Accepts, steps: seq<Step> ensures Clean(Run(env, ms, Initial(), steps)) {
        forall k | 0 <= k < |steps| && steps[k].Route? ensures WritesValues(ms, steps[k].call) {
          MakesWrites(ms, steps[k].call);
        }
        NeverNoChange(env, ms, steps);
      }
    }
  }
}
