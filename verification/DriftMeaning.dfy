/** What a reconcile pass does, in readings, tolerances and times only. */
module DriftMeaning {
  import opened Numeric
  import opened RouterModel
  import opened DriftModel
  import opened DriftLaws

  /** Equal as Python has it: a bool is the number 0 or 1. */
  ghost predicate SameValue(a: Value, b: Value) {
    || a == b
    || (a.Flag? && b.Num? && b.r == if a.b then 1.0 else 0.0)
    || (a.Num? && b.Flag? && a.r == if b.b then 1.0 else 0.0)
  }

  function Share(relative: real, size: real): real {
    relative * size
  }

  /** Numbers differ by more than both tolerances; anything else is not equal. */
  ghost predicate Differs(desired: Value, actual: Value, tol: Tolerance) {
    if desired.Num? && actual.Num? then
      Abs(actual.r - desired.r) > tol.absolute && Abs(actual.r - desired.r) > Share(tol.relative, Abs(desired.r))
    else !SameValue(desired, actual)
  }

  lemma DiffersIff(desired: Value, actual: Value, tol: Tolerance)
    requires tol.absolute >= 0.0 && tol.relative >= 0.0
    ensures IsDrift(desired, actual, tol) <==> Differs(desired, actual, tol)
  {
    if desired.Num? && actual.Num? {
      hide IsDrift;
      DriftIff(desired.r, actual.r, tol);
    }
  }

  /** The point is tracked and its device responds, the reading differs, and its last rewrite is an interval ago. */
  ghost predicate Owed(cfg: Config, w: World, last: map<Key, real>, now: real, k: Key) {
    && k.device in w.table && k.point in w.table[k.device]
    && k.device in w.devices && w.devices[k.device].responsive && k.point in w.devices[k.device].latest
    && Differs(w.table[k.device][k.point], w.devices[k.device].latest[k.point],
               if k.device in cfg.perDevice then cfg.perDevice[k.device] else cfg.tolerance)
    && (cfg.minInterval > 0.0 && k in last ==> now >= last[k] + cfg.minInterval)
  }

  lemma OwedIff(cfg: Config, w: World, last: map<Key, real>, now: real, k: Key)
    requires cfg.Valid()
    ensures Owed(cfg, w, last, now, k) <==> Due(cfg, w, last, now, k)
  {
    hide Differs, IsDrift;
    if Tracked(w, k) && Read(w, k) {
      DiffersIff(w.table[k.device][k.point], w.devices[k.device].latest[k.point], cfg.ToleranceOf(k.device));
    }
  }

  /** A pass attempts nothing that is not owed. What is owed it attempts once, unless the router may not write it, and
      then the point reads as desired exactly if the device accepted that attempt. All other readings stay. */
  lemma PassExact(env: Accepts, cfg: Config, w: World, last: map<Key, real>, now: real,
                  fixed: set<Key>, tried: map<Key, nat>, w': World, last': map<Key, real>, end: real, k: Key)
    requires cfg.Valid() && Pass(env, cfg, w, last, now, fixed, tried, w', last', end)
    ensures k in tried ==> Owed(cfg, w, last, now, k) && w.attempts <= tried[k] < w'.attempts
    ensures Owed(cfg, w, last, now, k) && w.table[k.device][k.point] != NoChange && !w.devices[k.device].protected ==>
      k in tried
    ensures k in fixed <==> k in tried && env(tried[k], k.device, k.point, w.table[k.device][k.point])
    ensures Cached(w', k) == if k in fixed then Some(w.table[k.device][k.point]) else Cached(w, k)
  {
    OwedIff(cfg, w, last, now, k);
    hide Owed, Drifted, Cooling, Cached, SameStatus, Timed;
    if Due(cfg, w, last, now, k) {
      DueIsTracked(cfg, w, last, now, k);
    }
  }

  lemma DueIsTracked(cfg: Config, w: World, last: map<Key, real>, now: real, k: Key)
    requires Due(cfg, w, last, now, k)
    ensures Tracked(w, k) && Read(w, k)
  {}
}
