/** Repair of overwritten setpoints: what a pass compares, which writes it owes, and what it leaves behind. */
module DriftModel {
  import opened Numeric
  import opened RouterModel

  datatype Tolerance = Tolerance(absolute: real, relative: real)

  datatype Config = Config(tolerance: Tolerance, perDevice: map<DeviceId, Tolerance>, minInterval: real) {
    /** What the constructor of the source demands. */
    ghost predicate Valid() {
      && tolerance.absolute >= 0.0 && tolerance.relative >= 0.0 && minInterval >= 0.0
      && forall d :: d in perDevice ==> perDevice[d].absolute >= 0.0 && perDevice[d].relative >= 0.0
    }

    function ToleranceOf(d: DeviceId): Tolerance {
      if d in perDevice then perDevice[d] else tolerance
    }
  }

  /** Python compares a bool with a number as 0 or 1. */
  function Plain(v: Value): Value {
    if v.Flag? then Num(if v.b then 1.0 else 0.0) else v
  }

  predicate IsDrift(desired: Value, actual: Value, tol: Tolerance) {
    if !desired.Num? || !actual.Num? then Plain(desired) != Plain(actual)
    else
      var diff := Abs(actual.r - desired.r);
      if diff <= tol.absolute then false
      else if tol.relative > 0.0 && Abs(desired.r) > 0.0 then !(diff / Abs(desired.r) <= tol.relative)
      else true
  }

  datatype Key = Key(device: DeviceId, point: Point)

  ghost predicate Tracked(w: World, k: Key) {
    k.device in w.table && k.point in w.table[k.device]
  }

  /** The device is registered and responsive, and the point has been read. */
  ghost predicate Read(w: World, k: Key) {
    k.device in w.devices && w.devices[k.device].responsive && k.point in w.devices[k.device].latest
  }

  ghost predicate Drifted(cfg: Config, w: World, k: Key) {
    Tracked(w, k) && Read(w, k) &&
    IsDrift(w.table[k.device][k.point], w.devices[k.device].latest[k.point], cfg.ToleranceOf(k.device))
  }

  predicate Cooling(cfg: Config, last: map<Key, real>, k: Key, now: real) {
    cfg.minInterval > 0.0 && k in last && now - last[k] < cfg.minInterval
  }

  /** The pass owes this point a rewrite. */
  ghost predicate Due(cfg: Config, w: World, last: map<Key, real>, now: real, k: Key) {
    Drifted(cfg, w, k) && !Cooling(cfg, last, k, now)
  }

  /** The device refused the pass's one attempt at this point, or the router may not write it at all. `tried` has the
      number of the attempt made at each point. */
  ghost predicate Refused(env: Accepts, w: World, tried: map<Key, nat>, k: Key) {
    Tracked(w, k) &&
    (|| w.table[k.device][k.point].NoChange?
     || !Reachable(w, k.device)
     || (k in tried && !env(tried[k], k.device, k.point, w.table[k.device][k.point])))
  }

  /** Every attempt since w was made at one handled point, with the value the table wants there, and it repaired the
      point exactly if the device accepted it. */
  ghost predicate Attempted(env: Accepts, w: World, handled: set<Key>, fixed: set<Key>, tried: map<Key, nat>,
                            w': World)
  {
    && tried.Keys <= handled && fixed <= tried.Keys && w'.attempts == w.attempts + |tried|
    && (forall k :: k in tried ==>
          && Tracked(w, k) && w.attempts <= tried[k] < w'.attempts
          && (k in fixed <==> env(tried[k], k.device, k.point, w.table[k.device][k.point])))
    && (forall j, k :: j in tried && k in tried && tried[j] == tried[k] ==> j == k)
  }

  function Cached(w: World, k: Key): Option<Value> {
    if k.device in w.devices && k.point in w.devices[k.device].latest
    then Some(w.devices[k.device].latest[k.point]) else None
  }

  ghost predicate SameStatus(w: World, w': World) {
    && w'.devices.Keys == w.devices.Keys && w'.members == w.members
    && forall d :: d in w.devices ==>
         w'.devices[d].responsive == w.devices[d].responsive && w'.devices[d].protected == w.devices[d].protected
  }

  /** The repaired points were due and now read as desired; all others read as before. */
  ghost predicate Repaired(cfg: Config, w: World, last: map<Key, real>, now: real, fixed: set<Key>, w': World) {
    && (forall k :: k in fixed ==> Due(cfg, w, last, now, k) && Cached(w', k) == Some(w.table[k.device][k.point]))
    && (forall k :: k !in fixed ==> Cached(w', k) == Cached(w, k))
  }

  /** The points that were due and handled but not repaired were refused. */
  ghost predicate RestRefused(env: Accepts, cfg: Config, w: World, last: map<Key, real>, now: real,
                              handled: set<Key>, fixed: set<Key>, tried: map<Key, nat>)
  {
    forall k :: k in handled && k !in fixed && Due(cfg, w, last, now, k) ==> Refused(env, w, tried, k)
  }

  /** Nothing is attempted at points that were not due. */
  ghost predicate OnlyDue(cfg: Config, w: World, last: map<Key, real>, now: real, tried: map<Key, nat>) {
    forall k :: k in tried ==> Due(cfg, w, last, now, k)
  }

  /** With cooldown on, the repaired points have a time of this pass; nothing else is timed. */
  ghost predicate Timed(cfg: Config, last: map<Key, real>, now: real, fixed: set<Key>,
      last': map<Key, real>, end: real) {
    && (cfg.minInterval > 0.0 ==> forall k :: k in fixed ==> k in last' && now <= last'[k] <= end)
    && (forall k :: k !in fixed || cfg.minInterval == 0.0 ==>
          (k in last' <==> k in last) && (k in last ==> last'[k] == last[k]))
  }

  /** How far a pass has got once it has handled some points: what it tried and repaired; nothing else has changed. */
  ghost predicate Progress(env: Accepts, cfg: Config, w: World, last: map<Key, real>, now: real,
                           handled: set<Key>, fixed: set<Key>, tried: map<Key, nat>,
                           w': World, last': map<Key, real>, end: real)
  {
    && w'.table == w.table && SameStatus(w, w') && end >= now
    && Attempted(env, w, handled, fixed, tried, w')
    && Repaired(cfg, w, last, now, fixed, w')
    && RestRefused(env, cfg, w, last, now, handled, fixed, tried)
    && OnlyDue(cfg, w, last, now, tried)
    && Timed(cfg, last, now, fixed, last', end)
  }

  /** A whole pass has handled every tracked point. */
  ghost predicate Pass(env: Accepts, cfg: Config, w: World, last: map<Key, real>, now: real,
                       fixed: set<Key>, tried: map<Key, nat>, w': World, last': map<Key, real>, end: real)
  {
    exists handled ::
      && Progress(env, cfg, w, last, now, handled, fixed, tried, w', last', end)
      && forall k :: Tracked(w, k) ==> k in handled
  }
}
