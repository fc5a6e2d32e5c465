/** The reconciler object: one call walks over the whole table and rewrites what has drifted. */
module DriftReconcilers {
  import opened Numeric
  import opened Collections
  import opened RouterModel
  import opened CommandRouters
  import opened DriftModel
  import opened DriftLaws

  class SetpointDriftReconciler {
    const config: Config
    const router: CommandRouter
    /** The monotonic clock's successive readings. */
    const clock: nat -> real
    var readings: nat
    var lastWriteAt: map<Key, real>

    ghost predicate Valid() {
      config.Valid() && forall i, j :: 0 <= i <= j ==> clock(i) <= clock(j)
    }

    constructor (config: Config, router: CommandRouter, clock: nat -> real)
      ensures this.config == config && this.router == router && this.clock == clock && lastWriteAt == map[]
    {
      this.config, this.router, this.clock := config, router, clock;
      readings, lastWriteAt := 0, map[];
    }

    method Now() returns (t: real)
      modifies this`readings
      ensures readings == old(readings) + 1 && t == clock(old(readings))
    {
      t := clock(readings);
      readings := readings + 1;
    }

    /** With cooldown on, the time of every repaired point is a reading of the clock later than the pass's first. */
    ghost predicate Noted(fixed: set<Key>, first: nat)
      reads this`lastWriteAt, this`readings
    {
      config.minInterval > 0.0 ==> forall k :: k in fixed ==>
        k in lastWriteAt && exists i: nat :: first < i < readings && lastWriteAt[k] == clock(i)
    }

    /** One pass, over the devices and points in any order. */
    method Reconcile() returns (fixed: set<Key>, ghost tried: map<Key, nat>, ghost now: real, ghost end: real)
      requires Valid()
      modifies this`readings, this`lastWriteAt, router
      ensures Pass(router.env, config, old(router.View()), old(lastWriteAt), now, fixed, tried,
                   router.View(), lastWriteAt, end)
      ensures now == clock(old(readings)) && end <= clock(readings) && Noted(fixed, old(readings))
    {
      ghost var w, last := router.View(), lastWriteAt;
      var start := Now();
      now, end := start, start;
      fixed, tried := {}, map[];
      ghost var handled: set<Key> := {};
      ProgressStarts(router.env, config, w, last, now);
      assert Noted({}, old(readings));
      hide Progress, Noted, Pass, SameStatus, Due;
      var todo := router.lastWritten.Keys;
      while todo != {}
        invariant todo <= w.table.Keys && now == start && end <= clock(readings)
        invariant old(readings) < readings && Noted(fixed, old(readings))
        invariant Progress(router.env, config, w, last, now, handled, fixed, tried, router.View(), lastWriteAt, end)
        invariant forall k: Key :: Tracked(w, k) ==> (k in handled <==> k.device !in todo)
        decreases |todo|
      {
        var d := Pick(todo);
        todo := todo - {d};
        ProgressFrame(router.env, config, w, last, now, handled, fixed, tried, router.View(), lastWriteAt, end);
        if d in router.devices && router.devices[d].responsive {
          handled, fixed, tried, end :=
            ReconcileDevice(d, start, w, last, handled, fixed, tried, end, old(readings));
        } else {
          ghost var keys := set p | p in w.table[d] :: Key(d, p);
          NoneDue(config, w, last, now, router.View(), d);
          ProgressSkips(router.env, config, w, last, now, handled, fixed, tried, router.View(), lastWriteAt, end, keys);
          handled := handled + keys;
        }
      }
      PassEnds(router.env, config, w, last, now, handled, fixed, tried, router.View(), lastWriteAt, end);
    }

    /** Pass after pass, with any calls on the router and any changes of its devices before each. */
    method Live(between: seq<seq<Step>>) returns (ghost ps: seq<PassRecord>)
      requires Valid()
      modifies this`readings, this`lastWriteAt, router
      ensures |ps| == |between| && Passes(router.env, config, ps, lastWriteAt)
      ensures ps != [] ==> ps[0].last == old(lastWriteAt)
      ensures ps != [] ==> ps[0].w == Run(router.env, router.All(), old(router.View()), between[0])
    {
      ps := [];
      var i := 0;
      while i < |between|
        invariant i <= |between| && |ps| == i && Passes(router.env, config, ps, lastWriteAt)
        invariant i == 0 ==> lastWriteAt == old(lastWriteAt) && router.View() == old(router.View())
        invariant i > 0 ==> ps[i - 1].end <= clock(readings)
        invariant i > 0 ==>
          && ps[0].last == old(lastWriteAt)
          && ps[0].w == Run(router.env, router.All(), old(router.View()), between[0])
      {
        hide Passes, Pass, Run;
        router.Live(between[i]);
        ghost var w, last := router.View(), lastWriteAt;
        var fixed, tried, now, end := Reconcile();
        ghost var r := PassRecord(w, last, now, fixed, tried, router.View(), end);
        PassesAppend(router.env, config, ps, last, r, lastWriteAt);
        ps := ps + [r];
        i := i + 1;
      }
    }

    /** All tracked points of one responsive device. */
    method ReconcileDevice(d: DeviceId, start: real, ghost w: World, ghost last: map<Key, real>,
                           ghost handled: set<Key>, fixed: set<Key>, ghost tried: map<Key, nat>, ghost end: real,
                           ghost first: nat)
        returns (ghost handled': set<Key>, fixed': set<Key>, ghost tried': map<Key, nat>, ghost end': real)
      requires first < readings && Noted(fixed, first)
      requires Valid() && d in router.lastWritten && d in w.devices && w.devices[d].responsive
      requires Progress(router.env, config, w, last, start, handled, fixed, tried, router.View(), lastWriteAt, end)
      requires router.lastWritten == w.table && end <= clock(readings)
      requires forall p :: p in w.table[d] ==> Key(d, p) !in handled
      modifies this`readings, this`lastWriteAt, router
      ensures Progress(router.env, config, w, last, start, handled', fixed', tried', router.View(), lastWriteAt, end')
      ensures end' <= clock(readings) && first < readings && Noted(fixed', first)
      ensures forall k :: k in handled' <==> k in handled || (k.device == d && k.point in w.table[d])
    {
      hide Progress;
      handled', fixed', tried', end' := handled, fixed, tried, end;
      var snapshot := router.lastWritten[d];
      var todo := snapshot.Keys;
      while todo != {}
        invariant todo <= snapshot.Keys && end' <= clock(readings)
        invariant first < readings && Noted(fixed', first)
        invariant Progress(router.env, config, w, last, start, handled', fixed', tried',
                           router.View(), lastWriteAt, end')
        invariant forall k :: k in handled' <==>
          k in handled || (k.device == d && k.point in w.table[d] && k.point !in todo)
        decreases |todo|
      {
        var p := Pick(todo);
        todo := todo - {p};
        handled', fixed', tried', end' :=
          ReconcilePoint(Key(d, p), snapshot[p], start, w, last, handled', fixed', tried', end', first);
      }
    }

    /** One point: compare, and rewrite if it drifted and is not cooling down. */
    method ReconcilePoint(k: Key, desired: Value, start: real, ghost w: World, ghost last: map<Key, real>,
                          ghost handled: set<Key>, fixed: set<Key>, ghost tried: map<Key, nat>, ghost end: real,
                          ghost first: nat)
        returns (ghost handled': set<Key>, fixed': set<Key>, ghost tried': map<Key, nat>, ghost end': real)
      requires first < readings && Noted(fixed, first)
      requires Valid() && Tracked(w, k) && desired == w.table[k.device][k.point] && k !in handled
      requires k.device in w.devices && w.devices[k.device].responsive
      requires Progress(router.env, config, w, last, start, handled, fixed, tried, router.View(), lastWriteAt, end)
      requires end <= clock(readings)
      modifies this`readings, this`lastWriteAt, router
      ensures Progress(router.env, config, w, last, start, handled', fixed', tried', router.View(), lastWriteAt, end')
      ensures handled' == handled + {k} && end' <= clock(readings)
      ensures first < readings && Noted(fixed', first)
    {
      handled', fixed', tried', end' := handled + {k}, fixed, tried, end;
      ghost var before := router.View();
      ProgressFrame(router.env, config, w, last, start, handled, fixed, tried, before, lastWriteAt, end);
      ProgressDue(router.env, config, w, last, start, handled, fixed, tried, before, lastWriteAt, end, k);
      DueNow(config, w, last, lastWriteAt, start, before, k);
      hide Progress, IsDrift, Cooling, WriteSingle, Succeeds, TriedNext, Recorded, Due, Drifted, Cached, SameStatus;
      var latest := router.devices[k.device].latest;
      if k.point !in latest || !IsDrift(desired, latest[k.point], config.ToleranceOf(k.device))
         || Cooling(config, lastWriteAt, k, start) {
        ProgressSkips(router.env, config, w, last, start, handled, fixed, tried, before, lastWriteAt, end, {k});
        return;
      }
      handled', fixed', tried', end' := Rewrite(k, desired, start, w, last, handled, fixed, tried, end, first);
    }

    /** With cooldown on, the time after a rewrite is kept. */
    method NoteTime(k: Key, ghost end: real, ghost fixed: set<Key>, ghost first: nat) returns (ghost end': real)
      requires Valid() && end <= clock(readings) && first < readings && Noted(fixed, first)
      modifies this`readings, this`lastWriteAt
      ensures end <= end' <= clock(readings) && first < readings && Noted(fixed + {k}, first)
      ensures lastWriteAt == if config.minInterval > 0.0 then old(lastWriteAt)[k := end'] else old(lastWriteAt)
    {
      end' := end;
      if config.minInterval > 0.0 {
        var done := Now();
        lastWriteAt := lastWriteAt[k := done];
        end' := done;
      }
    }

    /** A point that is due: write it, and note the time if that succeeds. */
    method Rewrite(k: Key, desired: Value, start: real, ghost w: World, ghost last: map<Key, real>,
                   ghost handled: set<Key>, fixed: set<Key>, ghost tried: map<Key, nat>, ghost end: real,
                   ghost first: nat)
        returns (ghost handled': set<Key>, fixed': set<Key>, ghost tried': map<Key, nat>, ghost end': real)
      requires first < readings && Noted(fixed, first)
      requires Valid() && Due(config, w, last, start, k) && k !in handled
      requires Tracked(w, k) && desired == w.table[k.device][k.point]
      requires Progress(router.env, config, w, last, start, handled, fixed, tried, router.View(), lastWriteAt, end)
      requires end <= clock(readings)
      modifies this`readings, this`lastWriteAt, router
      ensures Progress(router.env, config, w, last, start, handled', fixed', tried', router.View(), lastWriteAt, end')
      ensures handled' == handled + {k} && end' <= clock(readings)
      ensures first < readings && Noted(fixed', first)
    {
      handled', fixed', end' := handled + {k}, fixed, end;
      ghost var before := router.View();
      hide *;
      tried' := TriedNext(before, k, desired, tried);
      var ok := router.TryWriteSingle(k.device, k.point, desired);
      if ok {
        ghost var last' := lastWriteAt;
        end' := NoteTime(k, end, fixed, first);
        fixed' := fixed + {k};
        ProgressFixes(router.env, config, w, last, start, handled, fixed, tried, before, last', end, k, end');
      } else {
        ProgressRefused(router.env, config, w, last, start, handled, fixed, tried, before, lastWriteAt, end, k);
      }
    }
  }

  lemma PassesAppend(env: Accepts, cfg: Config, ps: seq<PassRecord>, last: map<Key, real>, r: PassRecord,
                     final: map<Key, real>)
    requires Passes(env, cfg, ps, last) && r.last == last && (ps != [] ==> ps[|ps| - 1].end <= r.now)
    requires Pass(env, cfg, r.w, r.last, r.now, r.fixed, r.tried, r.w', final, r.end)
    ensures Passes(env, cfg, ps + [r], final)
  {
    hide Pass;
    var more := ps + [r];
    forall i | 0 <= i < |more|
      ensures Pass(env, cfg, more[i].w, more[i].last, more[i].now, more[i].fixed, more[i].tried, more[i].w',
                   LastAfter(more, final, i), more[i].end)
    {
      if i < |ps| {
        assert more[i] == ps[i] && LastAfter(more, final, i) == LastAfter(ps, last, i);
      }
    }
    forall i | 0 <= i < |more| - 1 ensures more[i].end <= more[i + 1].now {
      assert i < |ps| - 1 ==> ps[i].end <= ps[i + 1].now;
    }
  }

  // ---- How a pass progresses ----

  lemma NoneDue(cfg: Config, w: World, last: map<Key, real>, now: real, w': World, d: DeviceId)
    requires SameStatus(w, w') && !(d in w'.devices && w'.devices[d].responsive)
    ensures forall k: Key :: k.device == d ==> !Due(cfg, w, last, now, k)
  {
    hide IsDrift, Cooling;
  }

  lemma PassEnds(env: Accepts, cfg: Config, w: World, last: map<Key, real>, now: real,
                 handled: set<Key>, fixed: set<Key>, tried: map<Key, nat>,
                 w': World, last': map<Key, real>, end: real)
    requires Progress(env, cfg, w, last, now, handled, fixed, tried, w', last', end)
    requires forall k :: Tracked(w, k) ==> k in handled
    ensures Pass(env, cfg, w, last, now, fixed, tried, w', last', end)
  {
    hide Progress;
  }

  lemma ProgressStarts(env: Accepts, cfg: Config, w: World, last: map<Key, real>, now: real)
    ensures Progress(env, cfg, w, last, now, {}, {}, map[], w, last, now)
  {}

  lemma ProgressFrame(env: Accepts, cfg: Config, w: World, last: map<Key, real>, now: real,
                      handled: set<Key>, fixed: set<Key>, tried: map<Key, nat>,
                      w': World, last': map<Key, real>, end: real)
    requires Progress(env, cfg, w, last, now, handled, fixed, tried, w', last', end)
    ensures w'.table == w.table && SameStatus(w, w') && end >= now
  {}

  /** A point not handled yet is due exactly if the current readings say so. */
  lemma ProgressDue(env: Accepts, cfg: Config, w: World, last: map<Key, real>, now: real,
                    handled: set<Key>, fixed: set<Key>, tried: map<Key, nat>,
                    w': World, last': map<Key, real>, end: real, k: Key)
    requires Progress(env, cfg, w, last, now, handled, fixed, tried, w', last', end) && k !in handled
    ensures Due(cfg, w, last, now, k) <==> Drifted(cfg, w', k) && !Cooling(cfg, last', k, now)
    ensures Cached(w', k) == Cached(w, k)
  {
    hide IsDrift, Refused, Config.ToleranceOf;
  }

  /** What the code looks at. */
  lemma DueNow(cfg: Config, w: World, last: map<Key, real>, last': map<Key, real>, now: real, w': World, k: Key)
    requires w'.table == w.table && SameStatus(w, w') && Tracked(w, k)
    requires k.device in w.devices && w.devices[k.device].responsive
    requires Due(cfg, w, last, now, k) <==> Drifted(cfg, w', k) && !Cooling(cfg, last', k, now)
    ensures k.device in w'.devices
    ensures var latest := w'.devices[k.device].latest;
      Due(cfg, w, last, now, k) <==>
        && k.point in latest && !Cooling(cfg, last', k, now)
        && IsDrift(w.table[k.device][k.point], latest[k.point], cfg.ToleranceOf(k.device))
  {
    hide IsDrift, Cooling, Config.ToleranceOf, Due;
  }

  lemma ProgressSkips(env: Accepts, cfg: Config, w: World, last: map<Key, real>, now: real,
                      handled: set<Key>, fixed: set<Key>, tried: map<Key, nat>,
                      w': World, last': map<Key, real>, end: real, keys: set<Key>)
    requires Progress(env, cfg, w, last, now, handled, fixed, tried, w', last', end)
    requires forall k :: k in keys ==> !Due(cfg, w, last, now, k)
    ensures Progress(env, cfg, w, last, now, handled + keys, fixed, tried, w', last', end)
  {
    hide Due, Refused, Cached, SameStatus;
  }

  /** The attempts after a call at this point: one more, unless the router refuses by itself. */
  ghost function TriedNext(w: World, k: Key, v: Value, tried: map<Key, nat>): map<Key, nat> {
    if v.NoChange? || !Reachable(w, k.device) then tried else tried[k := w.attempts]
  }

  lemma SameStatusTrans(w: World, w': World, w'': World)
    requires SameStatus(w, w') && SameStatus(w', w'')
    ensures SameStatus(w, w'')
  {}

  lemma AttemptedOne(env: Accepts, w: World, handled: set<Key>, fixed: set<Key>, tried: map<Key, nat>,
                     w': World, w'': World, k: Key, ok: bool)
    requires Attempted(env, w, handled, fixed, tried, w') && k !in handled && Tracked(w, k)
    requires w''.attempts == w'.attempts + 1
    requires ok == env(w'.attempts, k.device, k.point, w.table[k.device][k.point])
    ensures Attempted(env, w, handled + {k}, if ok then fixed + {k} else fixed, tried[k := w'.attempts], w'')
  {
    assert k !in tried && |tried[k := w'.attempts]| == |tried| + 1;
    hide Tracked;
  }

  /** A call at a new point adds its attempt, if it makes one, and the point is repaired exactly if that succeeds. */
  lemma AttemptedNext(env: Accepts, w: World, handled: set<Key>, fixed: set<Key>, tried: map<Key, nat>,
                      w': World, k: Key)
    requires Attempted(env, w, handled, fixed, tried, w') && k !in handled && Tracked(w, k)
    ensures var v := w.table[k.device][k.point];
      Attempted(env, w, handled + {k}, if Succeeds(env, w', k.device, k.point, v) then fixed + {k} else fixed,
                TriedNext(w', k, v, tried), WriteSingle(env, w', k.device, k.point, v))
  {
    var v := w.table[k.device][k.point];
    if !v.NoChange? && Reachable(w', k.device) {
      var w'' := WriteSingle(env, w', k.device, k.point, v);
      assert w''.attempts == w'.attempts + 1;
      AttemptedOne(env, w, handled, fixed, tried, w', w'', k, env(w'.attempts, k.device, k.point, v));
      hide Attempted, WriteSingle;
    }
  }

  /** What was refused stays refused, and a call that fails was refused. */
  lemma RestRefusedNext(env: Accepts, cfg: Config, w: World, last: map<Key, real>, now: real,
                        handled: set<Key>, fixed: set<Key>, tried: map<Key, nat>, w': World, k: Key)
    requires RestRefused(env, cfg, w, last, now, handled, fixed, tried) && tried.Keys <= handled && k !in handled
    requires SameStatus(w, w') && Tracked(w, k)
    ensures var v := w.table[k.device][k.point];
      RestRefused(env, cfg, w, last, now, handled + {k},
                  if Succeeds(env, w', k.device, k.point, v) then fixed + {k} else fixed, TriedNext(w', k, v, tried))
  {
    hide Due;
  }

  lemma ProgressRefused(env: Accepts, cfg: Config, w: World, last: map<Key, real>, now: real,
                        handled: set<Key>, fixed: set<Key>, tried: map<Key, nat>, w': World, last': map<Key, real>,
                        end: real, k: Key)
    requires Progress(env, cfg, w, last, now, handled, fixed, tried, w', last', end) && k !in handled
    requires Due(cfg, w, last, now, k) && !Succeeds(env, w', k.device, k.point, w.table[k.device][k.point])
    ensures var v := w.table[k.device][k.point];
      Progress(env, cfg, w, last, now, handled + {k}, fixed, TriedNext(w', k, v, tried),
               WriteSingle(env, w', k.device, k.point, v), last', end)
  {
    AttemptedNext(env, w, handled, fixed, tried, w', k);
    RestRefusedNext(env, cfg, w, last, now, handled, fixed, tried, w', k);
    FailedWrite(env, cfg, w, last, now, fixed, w', k);
    OnlyDueNext(cfg, w, last, now, tried, w', k);
    hide Due, WriteSingle, Succeeds, Timed, Attempted, Repaired, RestRefused, OnlyDue, TriedNext, SameStatus, Tracked;
  }

  lemma OnlyDueNext(cfg: Config, w: World, last: map<Key, real>, now: real, tried: map<Key, nat>, w': World, k: Key)
    requires OnlyDue(cfg, w, last, now, tried) && Due(cfg, w, last, now, k)
    ensures OnlyDue(cfg, w, last, now, TriedNext(w', k, w.table[k.device][k.point], tried))
  {
    hide Drifted, Cooling;
  }

  /** A failed rewrite changes nothing that anyone reads. */
  lemma FailedWrite(env: Accepts, cfg: Config, w: World, last: map<Key, real>, now: real, fixed: set<Key>, w': World,
                    k: Key)
    requires Repaired(cfg, w, last, now, fixed, w') && SameStatus(w, w') && Tracked(w, k)
    requires !Succeeds(env, w', k.device, k.point, w.table[k.device][k.point])
    ensures var w'' := WriteSingle(env, w', k.device, k.point, w.table[k.device][k.point]);
      w''.table == w'.table && SameStatus(w, w'') && Repaired(cfg, w, last, now, fixed, w'')
  {
    hide Due;
  }

  /** A successful rewrite changes the cached value of its point only; the table says the same as before. */
  lemma RepairingWrite(env: Accepts, w: World, k: Key)
    requires Tracked(w, k) && Succeeds(env, w, k.device, k.point, w.table[k.device][k.point])
    ensures var v := w.table[k.device][k.point];
      var w' := WriteSingle(env, w, k.device, k.point, v);
      && w'.table == w.table && SameStatus(w, w')
      && Cached(w', k) == Some(v) && forall j :: j != k ==> Cached(w', j) == Cached(w, j)
  {
    var d, p := k.device, k.point;
    assert w.table[d][p := w.table[d][p]] == w.table[d];
    assert w.table[d := w.table[d]] == w.table;
  }

  lemma ProgressFixes(env: Accepts, cfg: Config, w: World, last: map<Key, real>, now: real,
                      handled: set<Key>, fixed: set<Key>, tried: map<Key, nat>, w': World, last': map<Key, real>,
                      end: real, k: Key, end': real)
    requires Progress(env, cfg, w, last, now, handled, fixed, tried, w', last', end) && k !in handled
    requires Due(cfg, w, last, now, k) && Succeeds(env, w', k.device, k.point, w.table[k.device][k.point])
    requires end' >= end
    requires cfg.minInterval >= 0.0
    ensures var v := w.table[k.device][k.point];
      Progress(env, cfg, w, last, now, handled + {k}, fixed + {k}, TriedNext(w', k, v, tried),
               WriteSingle(env, w', k.device, k.point, v),
               if cfg.minInterval > 0.0 then last'[k := end'] else last', end')
  {
    var w'' := WriteSingle(env, w', k.device, k.point, w.table[k.device][k.point]);
    AttemptedNext(env, w, handled, fixed, tried, w', k);
    RestRefusedNext(env, cfg, w, last, now, handled, fixed, tried, w', k);
    RepairingWrite(env, w', k);
    SameStatusTrans(w, w', w'');
    RepairedOne(cfg, w, last, now, fixed, w', w'', k);
    TimedOne(cfg, last, now, fixed, last', end, k, end');
    OnlyDueNext(cfg, w, last, now, tried, w', k);
    hide OnlyDue, Due, Refused, WriteSingle, Succeeds, Cached, SameStatus, Repaired, RestRefused, Timed, Attempted,
      TriedNext;
  }

  lemma RepairedOne(cfg: Config, w: World, last: map<Key, real>, now: real, fixed: set<Key>,
                    w': World, w'': World, k: Key)
    requires Repaired(cfg, w, last, now, fixed, w') && Due(cfg, w, last, now, k)
    requires Cached(w'', k) == Some(w.table[k.device][k.point])
    requires forall j :: j != k ==> Cached(w'', j) == Cached(w', j)
    ensures Repaired(cfg, w, last, now, fixed + {k}, w'')
  {
    hide Drifted, Cooling, Cached;
  }

  lemma TimedOne(cfg: Config, last: map<Key, real>, now: real, fixed: set<Key>, last': map<Key, real>, end: real,
                 k: Key, end': real)
    requires Timed(cfg, last, now, fixed, last', end) && now <= end <= end' && cfg.minInterval >= 0.0
    ensures Timed(cfg, last, now, fixed + {k}, if cfg.minInterval > 0.0 then last'[k := end'] else last', end')
  {}
}
