/** What a routing call writes, in the fields of the mappings and commands: every point ends with the transformed field
    of the last mapping whose attempt there the device accepted. */
module RouterMeaning {
  import opened Numeric
  import opened RouterModel
  import opened RouterLaws

  // ---- What mappings want ----

  /** The command a mapping takes for a device: per device only capability mappings, and only if it has one. */
  ghost predicate Takes(m: Mapping, call: Call, d: DeviceId, c: Command) {
    if m.target.Capable? && call.each.Some? then d in call.each.value && c == call.each.value[d] else c == call.command
  }

  /** v is the command's field, transformed; there is none without the field, for NO_CHANGE, or if the transformation
      raises. */
  ghost predicate Turns(m: Mapping, c: Command, v: Value) {
    && m.field in c && c[m.field] != NoChange
    && (if m.transform.None? then v == c[m.field] else m.transform.value(c[m.field]) == Some(v))
  }

  /** The mapping is aimed at this point of the device. */
  ghost predicate Aims(w: World, t: Target, d: DeviceId, p: Point) {
    match t
    case Single(e, q) => e == d && q == p
    case Broadcast(g, q) => g in w.members && d in w.members[g] && q == p
    case Capable(scope, slot) =>
      && (scope.One? ==> scope.device == d)
      && (scope.OfTrait? ==> scope.group in w.members && d in w.members[scope.group])
      && (scope.Everyone? ==> d in w.roster)
      && d in w.devices && slot in w.devices[d].bindings && w.devices[d].bindings[slot] == p
  }

  /** The mapping has v to write at the point, and the device can be written. Only a mapping to a point of one device
      holds back a NO_CHANGE its transformation made. */
  ghost predicate Wants(w: World, m: Mapping, call: Call, d: DeviceId, p: Point, v: Value) {
    && Aims(w, m.target, d, p)
    && d in w.devices && w.devices[d].responsive && !w.devices[d].protected
    && (exists c :: Takes(m, call, d, c) && Turns(m, c, v))
    && (m.target.Single? ==> v != NoChange)
  }

  // ---- What there is at a point ----

  function Reading(w: World, d: DeviceId, p: Point): Option<Value> {
    if d in w.devices && p in w.devices[d].latest then Some(w.devices[d].latest[p]) else None
  }

  /** The table and the device's cache both have v. */
  ghost predicate Holds(w: World, d: DeviceId, p: Point, v: Value) {
    Desired(w.table, d, p) == Some(v) && Reading(w, d, p) == Some(v)
  }

  ghost predicate Untouched(w: World, w': World, d: DeviceId, p: Point) {
    Desired(w'.table, d, p) == Desired(w.table, d, p) && Reading(w', d, p) == Reading(w, d, p)
  }

  lemma TriedAt(env: Accepts, w: World, d: DeviceId, p: Point, v: Value, e: DeviceId, q: Point)
    requires d in w.devices
    ensures var w' := Tried(env, w, d, p, v);
      && w'.attempts == w.attempts + 1
      && (e == d && q == p && env(w.attempts, d, p, v) ==> Holds(w', d, p, v))
      && (e != d || q != p || !env(w.attempts, d, p, v) ==> Untouched(w, w', e, q))
  {
    RecordedAt(w.table, d, p, v, e, q);
    hide Recorded, Desired;
  }

  /** The attempt with v between the two states was accepted, and the point holds v, or it was refused. */
  ghost predicate Settled(env: Accepts, w: World, w': World, d: DeviceId, p: Point, v: Value) {
    exists n: nat :: Number(env, w, w', n) && if env(n, d, p, v) then Holds(w', d, p, v) else Untouched(w, w', d, p)
  }

  ghost predicate Number(env: Accepts, w: World, w': World, n: nat) {
    w.attempts <= n < w'.attempts
  }

  // ---- One mapping ----

  /** A list of devices, each with something to write. */
  ghost predicate Meant(w: World, ids: seq<DeviceId>, at: Where, what: Payload, d: DeviceId, p: Point, v: Value) {
    d in ids && Addressed(w, d, at, what) && Resolved(w.devices[d], at) == Some(p) && what.For(d) == Some(v)
  }

  lemma {:induction false} WriteAllSettles(env: Accepts, w: World, ids: seq<DeviceId>, at: Where, what: Payload,
                                           d: DeviceId, p: Point)
    ensures var w' := WriteAll(env, w, ids, at, what);
      && (forall v :: Meant(w, ids, at, what, d, p, v) ==> Settled(env, w, w', d, p, v))
      && ((forall v :: !Meant(w, ids, at, what, d, p, v)) ==> Untouched(w, w', d, p))
  {
    if ids != [] {
      var front, e := ids[..|ids| - 1], ids[|ids| - 1];
      var before := WriteAll(env, w, front, at, what);
      assert forall x :: x in ids <==> x in front || x == e;
      WriteAllSettles(env, w, front, at, what, d, p);
      WriteAllKeeps(env, w, front, at, what);
      AlikeAddressed(w, before, e, at, what);
      hide Alike, WriteAll, Tried, Holds, Untouched, Addressed, Resolved, Payload.For;
      LastSettles(env, w, ids, front, at, what, before, d, p);
    }
  }

  lemma WriteAllLast(env: Accepts, w: World, ids: seq<DeviceId>, at: Where, what: Payload)
    requires ids != []
    ensures var before, e := WriteAll(env, w, ids[..|ids| - 1], at, what), ids[|ids| - 1];
      WriteAll(env, w, ids, at, what) ==
        if Addressed(before, e, at, what)
        then Tried(env, before, e, Resolved(before.devices[e], at).value, what.For(e).value) else before
  {
    hide Tried;
  }

  lemma LastSettles(env: Accepts, w: World, ids: seq<DeviceId>, front: seq<DeviceId>, at: Where, what: Payload,
                    before: World, d: DeviceId, p: Point)
    requires ids != [] && front == ids[..|ids| - 1]
    requires before == WriteAll(env, w, front, at, what) && w.attempts <= before.attempts
    requires Addressed(w, ids[|ids| - 1], at, what) <==> Addressed(before, ids[|ids| - 1], at, what)
    requires Addressed(w, ids[|ids| - 1], at, what) ==>
      Resolved(w.devices[ids[|ids| - 1]], at) == Resolved(before.devices[ids[|ids| - 1]], at)
    requires forall v :: Meant(w, front, at, what, d, p, v) ==> Settled(env, w, before, d, p, v)
    requires (forall v :: !Meant(w, front, at, what, d, p, v)) ==> Untouched(w, before, d, p)
    ensures var w' := WriteAll(env, w, ids, at, what);
      && (forall v :: Meant(w, ids, at, what, d, p, v) ==> Settled(env, w, w', d, p, v))
      && ((forall v :: !Meant(w, ids, at, what, d, p, v)) ==> Untouched(w, w', d, p))
  {
    var e := ids[|ids| - 1];
    var w' := WriteAll(env, w, ids, at, what);
    assert forall x :: x in ids <==> x in front || x == e;
    WriteAllLast(env, w, ids, at, what);
    assert forall v :: Meant(w, front, at, what, d, p, v) ==> Meant(w, ids, at, what, d, p, v);
    if Addressed(before, e, at, what) {
      var q, u := Resolved(before.devices[e], at).value, what.For(e).value;
      TriedAt(env, before, e, q, u, d, p);
      if e == d && q == p {
        assert Meant(w, ids, at, what, d, p, u);
        hide WriteAll, Tried, Addressed, Resolved, Holds, Desired, Reading;
        forall v | Meant(w, ids, at, what, d, p, v) ensures Settled(env, w, w', d, p, v) {
          assert v == u && Number(env, w, w', before.attempts);
          if !env(before.attempts, d, p, v) && Meant(w, front, at, what, d, p, v) {
            SettledLater(env, w, before, w', d, p, v);
          }
        }
      } else {
        hide WriteAll, Tried, Addressed, Resolved, Holds, Desired, Reading;
        forall v | Meant(w, ids, at, what, d, p, v) ensures Settled(env, w, w', d, p, v) {
          assert Meant(w, front, at, what, d, p, v);
          SettledLater(env, w, before, w', d, p, v);
        }
      }
    } else {
      forall v | Meant(w, ids, at, what, d, p, v) ensures Meant(w, front, at, what, d, p, v) {}
    }
  }

  lemma SettledLater(env: Accepts, w: World, before: World, w': World, d: DeviceId, p: Point, v: Value)
    requires Settled(env, w, before, d, p, v) && Untouched(before, w', d, p) && before.attempts <= w'.attempts
    ensures Settled(env, w, w', d, p, v)
  {
    var n: nat :| Number(env, w, before, n)
      && if env(n, d, p, v) then Holds(before, d, p, v) else Untouched(w, before, d, p);
    hide Desired, Reading;
    assert Number(env, w, w', n);
  }

  lemma TurnsIff(m: Mapping, c: Command, v: Value)
    ensures m.Made(c) == Some(v) <==> Turns(m, c, v)
  {}

  lemma OutputIff(m: Mapping, call: Call, d: DeviceId, v: Value)
    ensures m.target.Single? || m.Output(call).For(d) == Some(v) <==>
      m.target.Single? || exists c :: Takes(m, call, d, c) && Turns(m, c, v)
  {
    TurnsIff(m, call.command, v);
    hide Turns, Mapping.Made;
    if m.target.Capable? && call.each.Some? {
      if d in call.each.value {
        TurnsIff(m, call.each.value[d], v);
        assert Takes(m, call, d, call.each.value[d]);
      }
    } else {
      assert Takes(m, call, d, call.command);
    }
  }

  lemma WantsIff(w: World, m: Mapping, call: Call, d: DeviceId, p: Point, v: Value)
    requires !m.target.Single?
    ensures Wants(w, m, call, d, p, v) <==>
      Meant(w, Addressees(w, m.target), Spot(m.target), m.Output(call), d, p, v)
  {
    OutputIff(m, call, d, v);
    hide Takes, Turns, Mapping.Output, Payload.For;
  }

  lemma SingleWants(w: World, m: Mapping, call: Call, d: DeviceId, p: Point, v: Value)
    requires m.target.Single?
    ensures Wants(w, m, call, d, p, v) <==>
      && d == m.target.device && p == m.target.point && m.Made(call.command) == Some(v)
      && Reachable(w, d) && v != NoChange
  {
    TurnsIff(m, call.command, v);
    hide Turns, Mapping.Made;
    assert Takes(m, call, d, call.command);
  }

  lemma RoutedSettles(env: Accepts, w: World, m: Mapping, call: Call, d: DeviceId, p: Point)
    ensures var w' := Routed(env, w, m, call);
      && (forall v :: Wants(w, m, call, d, p, v) ==> Settled(env, w, w', d, p, v))
      && ((forall v :: !Wants(w, m, call, d, p, v)) ==> Untouched(w, w', d, p))
  {
    var w' := Routed(env, w, m, call);
    if m.target.Single? {
      SingleSettles(env, w, m, call, d, p);
    } else {
      var ids, at, what := Addressees(w, m.target), Spot(m.target), m.Output(call);
      WriteAllSettles(env, w, ids, at, what, d, p);
      hide Wants, Meant, Settled, Untouched, WriteAll, Mapping.Output;
      forall v ensures Wants(w, m, call, d, p, v) <==> Meant(w, ids, at, what, d, p, v) {
        WantsIff(w, m, call, d, p, v);
      }
    }
  }

  lemma SingleSettles(env: Accepts, w: World, m: Mapping, call: Call, d: DeviceId, p: Point)
    requires m.target.Single?
    ensures var w' := Routed(env, w, m, call);
      && (forall v :: Wants(w, m, call, d, p, v) ==> Settled(env, w, w', d, p, v))
      && ((forall v :: !Wants(w, m, call, d, p, v)) ==> Untouched(w, w', d, p))
  {
    var made, e, q := m.Made(call.command), m.target.device, m.target.point;
    forall v ensures Wants(w, m, call, d, p, v) <==>
      d == e && p == q && made == Some(v) && Reachable(w, d) && v != NoChange
    {
      SingleWants(w, m, call, d, p, v);
    }
    hide Wants, Tried, Mapping.Made, Holds, Desired, Reading;
    if made.Some? && made.value != NoChange && Reachable(w, e) {
      TriedAt(env, w, e, q, made.value, d, p);
      assert Number(env, w, Routed(env, w, m, call), w.attempts);
    }
  }

  // ---- A whole call ----

  lemma RoutedKeeps(env: Accepts, w: World, m: Mapping, call: Call)
    ensures Alike(w, Routed(env, w, m, call)) && w.attempts <= Routed(env, w, m, call).attempts
  {
    hide Mapping.Made, Mapping.Output, Tried, Alike;
    if m.target.Single? {
      var v := m.Made(call.command);
      AlikeSelf(w);
      if v.Some? && Succeedable(w, m.target.device, v.value) {
        TriedAlike(env, w, m.target.device, m.target.point, v.value);
        TriedAt(env, w, m.target.device, m.target.point, v.value, m.target.device, m.target.point);
      }
    } else {
      WriteAllKeeps(env, w, Addressees(w, m.target), Spot(m.target), m.Output(call));
    }
  }

  ghost predicate Succeedable(w: World, d: DeviceId, v: Value) {
    !v.NoChange? && Reachable(w, d)
  }

  lemma AlikeSelf(w: World)
    ensures Alike(w, w)
  {}

  lemma {:induction false} RoutedAllKeeps(env: Accepts, w: World, ms: seq<Mapping>, call: Call)
    ensures Alike(w, RoutedAll(env, w, ms, call)) && w.attempts <= RoutedAll(env, w, ms, call).attempts
  {
    hide Alike, Routed;
    if ms == [] {
      AlikeSelf(w);
    } else {
      var before := RoutedAll(env, w, ms[..|ms| - 1], call);
      RoutedAllKeeps(env, w, ms[..|ms| - 1], call);
      RoutedKeeps(env, before, ms[|ms| - 1], call);
      AlikeTrans(w, before, Routed(env, before, ms[|ms| - 1], call));
    }
  }

  lemma AlikeWants(w: World, u: World, m: Mapping, call: Call, d: DeviceId, p: Point, v: Value)
    requires Alike(w, u)
    ensures Wants(u, m, call, d, p, v) <==> Wants(w, m, call, d, p, v)
  {
    hide Takes, Turns;
    assert Reachable(w, d) <==> Reachable(u, d);
  }

  /** In mapping j's turn the device accepted, or refused, an attempt at the point with v. */
  ghost predicate Answered(env: Accepts, w: World, ms: seq<Mapping>, call: Call, j: nat, d: DeviceId, p: Point,
                           v: Value, accepted: bool)
    requires j < |ms|
  {
    exists n: nat ::
      && Number(env, RoutedAll(env, w, ms[..j], call), RoutedAll(env, w, ms[..j + 1], call), n)
      && env(n, d, p, v) == accepted
  }

  /** Every mapping from i on that wants to write the point was refused. */
  ghost predicate RefusedFrom(env: Accepts, w: World, ms: seq<Mapping>, call: Call, i: nat, d: DeviceId, p: Point) {
    forall j, v :: i <= j < |ms| && Wants(w, ms[j], call, d, p, v) ==> Answered(env, w, ms, call, j, d, p, v, false)
  }

  /** Mapping i is the last one with an accepted attempt at the point, and its value is v. */
  ghost predicate LastAccepted(env: Accepts, w: World, ms: seq<Mapping>, call: Call, i: nat, d: DeviceId, p: Point,
                               v: Value)
    requires i < |ms|
  {
    && Wants(w, ms[i], call, d, p, v) && Answered(env, w, ms, call, i, d, p, v, true)
    && RefusedFrom(env, w, ms, call, i + 1, d, p)
  }

  lemma AnsweredFront(env: Accepts, w: World, ms: seq<Mapping>, call: Call, j: nat, d: DeviceId, p: Point, v: Value,
                      accepted: bool)
    requires j < |ms| - 1
    ensures Answered(env, w, ms[..|ms| - 1], call, j, d, p, v, accepted) <==>
      Answered(env, w, ms, call, j, d, p, v, accepted)
  {
    assert ms[..|ms| - 1][..j] == ms[..j] && ms[..|ms| - 1][..j + 1] == ms[..j + 1];
    hide RoutedAll;
  }

  lemma RefusedFurther(env: Accepts, w: World, ms: seq<Mapping>, front: seq<Mapping>, call: Call, i: nat, d: DeviceId,
                       p: Point)
    requires |ms| == |front| + 1 && front == ms[..|front|] && RefusedFrom(env, w, front, call, i, d, p)
    requires forall v :: Wants(w, ms[|front|], call, d, p, v) ==> Answered(env, w, ms, call, |front|, d, p, v, false)
    ensures RefusedFrom(env, w, ms, call, i, d, p)
  {
    hide Wants, Answered;
    forall j, v | i <= j < |ms| && Wants(w, ms[j], call, d, p, v)
      ensures Answered(env, w, ms, call, j, d, p, v, false)
    {
      if j < |front| {
        assert front[j] == ms[j] && front == ms[..|ms| - 1];
        AnsweredFront(env, w, ms, call, j, d, p, v, false);
      }
    }
  }

  lemma LastMapping(env: Accepts, w: World, ms: seq<Mapping>, front: seq<Mapping>, call: Call, d: DeviceId, p: Point)
    requires ms != [] && front == ms[..|ms| - 1]
    requires var before, w', m := RoutedAll(env, w, front, call), RoutedAll(env, w, ms, call), ms[|ms| - 1];
      && (forall v :: Wants(w, m, call, d, p, v) ==> Settled(env, before, w', d, p, v))
      && ((forall v :: !Wants(w, m, call, d, p, v)) ==> Untouched(before, w', d, p))
    requires var before := RoutedAll(env, w, front, call);
      || (exists i: nat, v :: i < |front| && LastAccepted(env, w, front, call, i, d, p, v) && Holds(before, d, p, v))
      || (RefusedFrom(env, w, front, call, 0, d, p) && Untouched(w, before, d, p))
    ensures var w' := RoutedAll(env, w, ms, call);
      || (exists i: nat, v :: i < |ms| && LastAccepted(env, w, ms, call, i, d, p, v) && Holds(w', d, p, v))
      || (RefusedFrom(env, w, ms, call, 0, d, p) && Untouched(w, w', d, p))
  {
    var k := |ms| - 1;
    var before, w', m := RoutedAll(env, w, front, call), RoutedAll(env, w, ms, call), ms[k];
    assert ms[..k] == front && ms[..k + 1] == ms;
    hide RoutedAll, Wants;
    if v :| Wants(w, m, call, d, p, v) && Answered(env, w, ms, call, k, d, p, v, true) && Holds(w', d, p, v) {
      assert LastAccepted(env, w, ms, call, k, d, p, v);
    } else {
      forall v | Wants(w, m, call, d, p, v)
        ensures Answered(env, w, ms, call, k, d, p, v, false) && Untouched(before, w', d, p)
      {
        RefusedOrHeld(env, w, ms, call, d, p, v);
      }
      assert Untouched(before, w', d, p);
      hide Answered, Settled;
      if i: nat, v :| i < |front| && LastAccepted(env, w, front, call, i, d, p, v) && Holds(before, d, p, v) {
        AnsweredFront(env, w, ms, call, i, d, p, v, true);
        RefusedFurther(env, w, ms, front, call, i + 1, d, p);
        assert front[i] == ms[i] && LastAccepted(env, w, ms, call, i, d, p, v);
      } else {
        RefusedFurther(env, w, ms, front, call, 0, d, p);
      }
    }
  }

  lemma RefusedOrHeld(env: Accepts, w: World, ms: seq<Mapping>, call: Call, d: DeviceId, p: Point, v: Value)
    requires ms != []
    requires Settled(env, RoutedAll(env, w, ms[..|ms| - 1], call), RoutedAll(env, w, ms, call), d, p, v)
    ensures var before, w' := RoutedAll(env, w, ms[..|ms| - 1], call), RoutedAll(env, w, ms, call);
      || (Answered(env, w, ms, call, |ms| - 1, d, p, v, true) && Holds(w', d, p, v))
      || (Answered(env, w, ms, call, |ms| - 1, d, p, v, false) && Untouched(before, w', d, p))
  {
    assert ms[..|ms| - 1 + 1] == ms;
    hide RoutedAll, Holds, Untouched;
  }

  /** After a routing call every point holds, in the table and in the device's cache, what the last mapping with an
      accepted attempt there wanted to write; where no attempt was accepted it is as before the call. */
  lemma {:induction false} CallHolds(env: Accepts, w: World, ms: seq<Mapping>, call: Call, d: DeviceId, p: Point)
    ensures var w' := RoutedAll(env, w, ms, call);
      || (exists i: nat, v :: i < |ms| && LastAccepted(env, w, ms, call, i, d, p, v) && Holds(w', d, p, v))
      || (RefusedFrom(env, w, ms, call, 0, d, p) && Untouched(w, w', d, p))
  {
    if ms != [] {
      var k, front := |ms| - 1, ms[..|ms| - 1];
      var m, before := ms[k], RoutedAll(env, w, front, call);
      CallHolds(env, w, front, call, d, p);
      RoutedAllKeeps(env, w, front, call);
      RoutedSettles(env, before, m, call, d, p);
      RoutedKeeps(env, before, m, call);
      hide Wants, Routed, Holds, Desired, Reading, Alike;
      forall v ensures Wants(before, m, call, d, p, v) <==> Wants(w, m, call, d, p, v) {
        AlikeWants(w, before, m, call, d, p, v);
      }
      assert ms[..k] == front && ms[..k + 1] == ms;
      LastMapping(env, w, ms, front, call, d, p);
    }
  }

  // ---- Devices that leave ----

  /** How often the device is listed. */
  function Times(ids: seq<DeviceId>, d: DeviceId): nat {
    if ids == [] then 0 else Times(ids[..|ids| - 1], d) + if ids[|ids| - 1] == d then 1 else 0
  }

  /** The list without the device: all others, in their order. */
  ghost predicate Leaves(ids: seq<DeviceId>, d: DeviceId, rest: seq<DeviceId>) {
    && |rest| == |ids| - Times(ids, d) && d !in rest
    && forall i :: 0 <= i < |ids| && ids[i] != d ==> Moves(ids, d, rest, i)
  }

  /** A device moves up by as many places as d takes before it. */
  ghost predicate Moves(ids: seq<DeviceId>, d: DeviceId, rest: seq<DeviceId>, i: nat)
    requires i < |ids|
  {
    0 <= i - Times(ids[..i], d) < |rest| && rest[i - Times(ids[..i], d)] == ids[i]
  }

  lemma {:induction false} WithoutLeaves(ids: seq<DeviceId>, d: DeviceId)
    ensures Leaves(ids, d, Without(ids, d))
  {
    if ids != [] {
      var k, front, rest := |ids| - 1, ids[..|ids| - 1], Without(ids, d);
      WithoutLeaves(front, d);
      TimesWithin(front, d);
      hide Times, Moves;
      forall i | 0 <= i < |ids| && ids[i] != d ensures Moves(ids, d, rest, i) {
        if i < k { MovesOn(ids, d, i); }
      }
      TimesLast(ids, d);
    }
  }

  lemma MovesOn(ids: seq<DeviceId>, d: DeviceId, i: nat)
    requires i < |ids| - 1 && Moves(ids[..|ids| - 1], d, Without(ids[..|ids| - 1], d), i)
    ensures Moves(ids, d, Without(ids, d), i)
  {
    assert ids[..|ids| - 1][..i] == ids[..i];
    hide Times;
  }

  lemma TimesLast(ids: seq<DeviceId>, d: DeviceId)
    requires ids != []
    ensures Times(ids, d) == Times(ids[..|ids| - 1], d) + if ids[|ids| - 1] == d then 1 else 0
  {}

  lemma {:induction false} TimesWithin(ids: seq<DeviceId>, d: DeviceId)
    ensures Times(ids, d) <= |ids|
  {
    if ids != [] { TimesWithin(ids[..|ids| - 1], d); }
  }

  /** A registered device leaves the registry, its lists and the table; no other device is touched. */
  lemma UnregisterForgets(w: World, d: DeviceId)
    requires d in w.devices
    ensures var w' := Unregistered(w, d);
      && w'.devices == w.devices - {d} && w'.table == w.table - {d}
      && Leaves(w.roster, d, w'.roster) && w'.members.Keys == w.members.Keys
      && forall t :: t in w.members ==> Leaves(w.members[t], d, w'.members[t])
  {
    WithoutLeaves(w.roster, d);
    forall t | t in w.members {
      WithoutLeaves(w.members[t], d);
    }
    hide Leaves, Without;
  }
}
