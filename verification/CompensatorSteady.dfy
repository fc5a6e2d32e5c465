/** When a call learns from a steady state, and what: counting calm calls, and the factor that absorbs the integral. */
module CompensatorSteady {
  import opened Numeric
  import opened FFTable
  import opened CompensatorModel
  import opened CompensatorRuns
  import H = CompensatorHold
  import opened CompensatorResponse

  // ---- Cycles and bins ----

  /** A time in cycles: the nearest number of intervals, or the floor. */
  lemma CyclesNearest(seconds: real, dt: real, floor: nat)
    ensures dt <= 0.0 ==> Cycles(seconds, dt, floor) == floor
    ensures dt > 0.0 ==>
      && floor <= Cycles(seconds, dt, floor)
      && 2.0 * (seconds - Weigh(Cycles(seconds, dt, floor) as real, dt)) <= dt
      && (floor < Cycles(seconds, dt, floor) ==> 2.0 * (Weigh(Cycles(seconds, dt, floor) as real, dt) - seconds) <= dt)
  {
    if dt > 0.0 {
      var x := seconds / dt;
      assert seconds == Weigh(x, dt);
      WithinHalf(x, Cycles(seconds, dt, floor), dt, seconds);
      hide Weigh;
    }
  }

  lemma WithinHalf(x: real, i: int, unit: real, y: real)
    requires unit > 0.0 && y == Weigh(x, unit)
    ensures 2.0 * (x - i as real) <= 1.0 ==> 2.0 * (y - Weigh(i as real, unit)) <= unit
    ensures 2.0 * (i as real - x) <= 1.0 ==> 2.0 * (Weigh(i as real, unit) - y) <= unit
  {
    WithinHalfOf(x, i as real, unit);
    WithinHalfOf(i as real, x, unit);
  }

  lemma WithinHalfOf(x: real, y: real, unit: real)
    requires unit > 0.0
    ensures 2.0 * (x - y) <= 1.0 ==> 2.0 * (Weigh(x, unit) - Weigh(y, unit)) <= unit
  {
    var d := x - y;
    assert d * unit == Weigh(x, unit) - Weigh(y, unit);
    MulMono(d, 0.5, unit);
  }

  /** The bin a power belongs to is at most half a bin away, or the last one on its side. */
  lemma BinNearest(cfg: Config, power: real)
    requires cfg.Valid()
    ensures var i, n, unit := BinIndex(cfg.rated, cfg.step, power), BinCount(cfg.step), BinPower(cfg);
      && -n <= i <= n
      && (i > -n ==> 2.0 * (Weigh(i as real, unit) - power) <= unit)
      && (i < n ==> 2.0 * (power - Weigh(i as real, unit)) <= unit)
  {
    var i, n, unit, x := BinIndex(cfg.rated, cfg.step, power), BinCount(cfg.step), BinPower(cfg), power / BinPower(cfg);
    SetpointAt(cfg, power);
    PositionOf(cfg, power, x);
    BinPowerPositive(cfg);
    hide BinPower, Position, Weigh;
    WithinHalf(x, i, unit, power);
  }

  // ---- Calm calls ----

  /** Not at a limit, a setpoint worth learning from, and an error below the threshold or within the deadband. */
  ghost predicate Calm(cfg: Config, setpoint: real, u: real, e: real) {
    && cfg.outputMin < u < cfg.outputMax && Counts(cfg, setpoint, Abs(setpoint), false)
    && (Abs(e) < Weigh(cfg.steadyThreshold, Abs(setpoint)) || !Counts(cfg, setpoint, Abs(e), false))
  }

  lemma CalmIff(cfg: Config, setpoint: real, u: real, e: real)
    requires Abs(setpoint) >= 0.000001
    ensures Calm(cfg, setpoint, u, e) <==> !Saturated(cfg, u) && Steady(cfg, setpoint, e, cfg.DeadbandFor(setpoint))
  {
    CountsIff(cfg, setpoint, Abs(setpoint), false);
    CountsIff(cfg, setpoint, Abs(e), false);
    hide Counts, Config.DeadbandFor;
  }

  // ---- What is learned ----

  /** t is the factor with which the feed-forward alone gives what the old one gives with the added part. */
  ghost predicate Absorbs(oldFF: real, setpoint: real, added: real, t: real)
    requires oldFF != 0.0 || setpoint > 0.0
  {
    if setpoint > 0.0 then Weigh(t, setpoint) == Weigh(oldFF, setpoint) + added
    else if Abs(setpoint / oldFF + added) > 0.000001 then Weigh(t, setpoint / oldFF + added) == setpoint
    else t == oldFF
  }

  lemma AbsorbsIs(oldFF: real, setpoint: real, added: real, t: real)
    requires setpoint != 0.0 && oldFF != 0.0 && Absorbs(oldFF, setpoint, added, t)
    ensures AbsorbingFF(oldFF, setpoint, added) == t
  {
    if setpoint > 0.0 {
      DivOf(oldFF * setpoint + added, setpoint, t);
    } else if Abs(setpoint / oldFF + added) > 0.000001 {
      DivOf(setpoint, setpoint / oldFF + added, t);
    }
  }

  /** The table the call works on, and the calm calls counted before it. */
  function TableOf(cfg: Config, s: State, setpoint: real): Table
    requires cfg.Valid()
  {
    if Abs(setpoint - s.lastSetpoint) >= cfg.changeRatio * cfg.rated
    then Inherited(cfg, s.ff, s.lastSetpoint, setpoint) else s.ff
  }

  function CountOf(cfg: Config, s: State, setpoint: real): nat {
    if Abs(setpoint - s.lastSetpoint) >= cfg.changeRatio * cfg.rated then 0 else s.steadyCount
  }

  lemma SettledRest(cfg: Config, s: State, setpoint: real, measurement: real, dt: real)
    requires cfg.Valid()
    ensures var t := Settled(cfg, s, setpoint, measurement, dt);
      && t.ff == TableOf(cfg, s, setpoint) && t.steadyCount == CountOf(cfg, s, setpoint)
      && t.lastSetpoint == setpoint && t.satCount == s.satCount
  {
    hide Inherited, Cycles, FeedForward, MayIntegrate, ClampedIntegral, Config.DeadbandFor, Shrinking;
  }

  /** A call in which nothing is learned: count, integral and table. */
  ghost predicate Keeps(r: State, count: nat, integral: real, ff: Table) {
    r.steadyCount == count && r.integral == integral && r.ff == ff
  }

  /** The factor t, limited, replaces the bin's if it differs by more than 1e-6, and clears the integral. */
  ghost predicate Replaces(cfg: Config, r: State, integral: real, ff: Table, idx: int, t: real)
    requires cfg.Valid()
  {
    exists x ::
      && Nearest(x, t, cfg.ffMin, cfg.ffMax)
      && if Abs(x - Bin(ff, idx)) > 0.000001 then Keeps(r, 0, 0.0, ff[idx := x]) else Keeps(r, 0, integral, ff)
  }

  lemma AbsorbedReplaces(cfg: Config, s: State, setpoint: real, t: real)
    requires cfg.Valid() && cfg.ffMin <= cfg.ffMax && setpoint != 0.0
    requires var idx := BinIndex(cfg.rated, cfg.step, setpoint);
      Bin(s.ff, idx) != 0.0 && Absorbs(Bin(s.ff, idx), setpoint, cfg.Contribution(s.integral), t)
    requires Abs(cfg.Contribution(s.integral)) >= cfg.DeadbandFor(setpoint)
    ensures Replaces(cfg, Absorbed(cfg, s, setpoint, cfg.DeadbandFor(setpoint)), s.integral, s.ff,
                     BinIndex(cfg.rated, cfg.step, setpoint), t)
  {
    var idx := BinIndex(cfg.rated, cfg.step, setpoint);
    AbsorbsIs(Bin(s.ff, idx), setpoint, cfg.Contribution(s.integral), t);
    ClampIsNearest(t, cfg.ffMin, cfg.ffMax);
    hide Absorbs, AbsorbingFF, BinIndex, Config.Contribution, Config.DeadbandFor, Bin, Nearest;
    assert Nearest(cfg.Bound(t), t, cfg.ffMin, cfg.ffMax);
  }

  lemma LearnedForm(cfg: Config, s: State, setpoint: real, measurement: real, dt: real)
    requires cfg.Valid() && NonZero(s.ff) && !IsZero(setpoint)
    ensures var p, t := Prepared(cfg, s, setpoint, measurement, dt), Settled(cfg, s, setpoint, measurement, dt);
      var r, u := Compensated(cfg, s, setpoint, measurement, dt), FeedForward(cfg, p.ff, setpoint);
      && (Saturated(cfg, u) ==>
            r.steadyCount == 0 && r.satCount == t.satCount + 1 && r.integral == t.integral
            && r.lastSetpoint == t.lastSetpoint)
      && (!Saturated(cfg, u) ==>
            && r.satCount == 0 && r.lastSetpoint == t.lastSetpoint
            && var l := LearnedSteady(cfg, t.(satCount := 0), setpoint, ErrorUsed(cfg, p, setpoint - measurement),
                                      cfg.DeadbandFor(setpoint), Cycles(cfg.steadySeconds, dt, 1));
               Keeps(r, l.steadyCount, l.integral, l.ff))
  {
    hide Prepared, Settled, FeedForward, Output, Cycles, Config.DeadbandFor, ErrorUsed, Saturated, Steady,
      AbsorbingFF, BinIndex, Observable, StepToward, PhysicalFF, Config.Contribution;
  }

  lemma CountReset(cfg: Config, s: State, setpoint: real, e: real, n: nat)
    requires cfg.Valid() && Steady(cfg, setpoint, e, cfg.DeadbandFor(setpoint)) && s.steadyCount + 1 >= n
    requires NonZero(s.ff)
    ensures LearnedSteady(cfg, s, setpoint, e, cfg.DeadbandFor(setpoint), n).steadyCount == 0
  {
    hide BinIndex, AbsorbingFF, Config.DeadbandFor, Config.Contribution;
  }

  /** Every call with a nonzero setpoint: it notes the setpoint; at a limit it starts counting calm calls anew and
      counts the saturated one; off the limits it counts calm calls, and once there are enough of them starts anew and
      may learn. */
  lemma CallCounts(cfg: Config, s: State, setpoint: real, measurement: real, dt: real, p: Path)
    requires cfg.Valid() && NonZero(s.ff) && Abs(setpoint) >= 0.000001
    requires Leads(cfg, s, setpoint, measurement, dt, p)
    ensures var r, n := Compensated(cfg, s, setpoint, measurement, dt), Cycles(cfg.steadySeconds, dt, 1);
      var ff, count := TableOf(cfg, s, setpoint), CountOf(cfg, s, setpoint);
      && r.lastSetpoint == setpoint
      && (if p.feed <= cfg.outputMin || cfg.outputMax <= p.feed
          then r.satCount == s.satCount + 1 && r.steadyCount == 0 && r.integral == p.integral
          else
            && r.satCount == 0
            && (!Calm(cfg, setpoint, p.feed, p.error) ==> Keeps(r, 0, p.integral, ff))
            && (Calm(cfg, setpoint, p.feed, p.error) && count + 1 < n ==> Keeps(r, count + 1, p.integral, ff))
            && (Calm(cfg, setpoint, p.feed, p.error) && count + 1 >= n ==> r.steadyCount == 0)
            && (Calm(cfg, setpoint, p.feed, p.error) && count + 1 >= n ==>
                  Counts(cfg, setpoint, Abs(p.added), false) || Keeps(r, 0, p.integral, ff)))
  {
    LearnedForm(cfg, s, setpoint, measurement, dt);
    SettledIs(cfg, s, setpoint, measurement, dt, p);
    SettledRest(cfg, s, setpoint, measurement, dt);
    PreparedIs(cfg, s, setpoint, measurement, dt);
    CalmIff(cfg, setpoint, p.feed, p.error);
    CountsIff(cfg, setpoint, Abs(p.added), false);
    ContributionIs(cfg, p.integral, p.added);
    if Calm(cfg, setpoint, p.feed, p.error) && CountOf(cfg, s, setpoint) + 1 >= Cycles(cfg.steadySeconds, dt, 1) {
      CountReset(cfg, Settled(cfg, s, setpoint, measurement, dt).(satCount := 0), setpoint, p.error,
                 Cycles(cfg.steadySeconds, dt, 1));
    }
    hide Leads, Prepared, Settled, FeedForward, Compensated, Cycles, Config.DeadbandFor, Steady, Calm, Counts,
      AbsorbingFF, BinIndex, Config.Contribution, TableOf, CountOf, NonZero;
    ErrorIsUsed(cfg, s, setpoint, measurement, dt, p);
  }

  lemma ErrorIsUsed(cfg: Config, s: State, setpoint: real, measurement: real, dt: real, p: Path)
    requires cfg.Valid() && Leads(cfg, s, setpoint, measurement, dt, p)
    ensures ErrorUsed(cfg, Prepared(cfg, s, setpoint, measurement, dt), setpoint - measurement) == p.error
  {
    PreparedIs(cfg, s, setpoint, measurement, dt);
    hide Prepared, ErrorUsed, Interpolates, FeedsForward, Integrates, IntegralIs, Adds, Nearest;
  }

  /** And what it then learns. */
  lemma CallLearns(cfg: Config, s: State, setpoint: real, measurement: real, dt: real, p: Path, t: real)
    requires cfg.Valid() && NonZero(s.ff) && Abs(setpoint) >= 0.000001 && cfg.ffMin <= cfg.ffMax
    requires Leads(cfg, s, setpoint, measurement, dt, p) && Calm(cfg, setpoint, p.feed, p.error)
    requires CountOf(cfg, s, setpoint) + 1 >= Cycles(cfg.steadySeconds, dt, 1)
    requires Counts(cfg, setpoint, Abs(p.added), false)
    requires var oldFF := Bin(TableOf(cfg, s, setpoint), BinIndex(cfg.rated, cfg.step, setpoint));
      oldFF != 0.0 && Absorbs(oldFF, setpoint, p.added, t)
    ensures Replaces(cfg, Compensated(cfg, s, setpoint, measurement, dt), p.integral, TableOf(cfg, s, setpoint),
                     BinIndex(cfg.rated, cfg.step, setpoint), t)
  {
    LearnedForm(cfg, s, setpoint, measurement, dt);
    SettledIs(cfg, s, setpoint, measurement, dt, p);
    SettledRest(cfg, s, setpoint, measurement, dt);
    CalmIff(cfg, setpoint, p.feed, p.error);
    CountsIff(cfg, setpoint, Abs(p.added), false);
    ContributionIs(cfg, p.integral, p.added);
    ErrorIsUsed(cfg, s, setpoint, measurement, dt, p);
    hide Leads, Prepared, Settled, FeedForward, Compensated, Cycles, Config.DeadbandFor, Steady, Calm, Counts,
      AbsorbingFF, BinIndex, Config.Contribution, TableOf, CountOf, NonZero, Absorbed, Absorbs, Bin, Nearest, ErrorUsed;
    var u := Settled(cfg, s, setpoint, measurement, dt);
    AbsorbedReplaces(cfg, u.(satCount := 0, steadyCount := u.steadyCount + 1), setpoint, t);
  }

  // ---- The hold window ----

  /** The window a call finds, or opens with a change of the setpoint. */
  datatype Window = Window(left: nat, whole: nat, used: nat, magnitude: Magnitude)

  function WindowOf(cfg: Config, s: State, setpoint: real, dt: real): Window {
    if Abs(setpoint - s.lastSetpoint) >= cfg.changeRatio * cfg.rated
    then Window(Cycles(cfg.holdSeconds, dt, 0), Cycles(cfg.holdSeconds, dt, 0), 0, Infinite)
    else Window(s.hold, s.holdInitial, s.cyclesInHold, s.lastErrorMagnitude)
  }

  /** The error is smaller than in the call before by more than the deadband; the first call counts as that. */
  ghost predicate ClosesIn(cfg: Config, setpoint: real, e: real, before: Magnitude) {
    before.Infinite? || Counts(cfg, setpoint, before.value - Abs(e), true)
  }

  lemma HeldIs(cfg: Config, s: State, setpoint: real, e: real)
    requires s.hold > 0
    ensures var t := Held(s, e, cfg.DeadbandFor(setpoint));
      && t.holdInitial == s.holdInitial && t.cyclesInHold == s.cyclesInHold + 1
      && t.lastErrorMagnitude == Finite(Abs(e))
      && t.hold == if s.cyclesInHold + 1 >= 3 * s.holdInitial then 0
                   else if ClosesIn(cfg, setpoint, e, s.lastErrorMagnitude) then s.hold else s.hold - 1
  {
    var before := s.lastErrorMagnitude;
    DeadbandNonNegative(cfg, setpoint);
    if before.Finite? { CountsIff(cfg, setpoint, before.value - Abs(e), true); }
    hide Counts, Config.DeadbandFor;
  }

  lemma KeepsWindow(cfg: Config, s: State, setpoint: real, measurement: real, dt: real)
    requires cfg.Valid() && NonZero(s.ff) && !IsZero(setpoint)
    ensures var r, t := Compensated(cfg, s, setpoint, measurement, dt), Settled(cfg, s, setpoint, measurement, dt);
      && r.hold == t.hold && r.holdInitial == t.holdInitial && r.cyclesInHold == t.cyclesInHold
      && r.lastErrorMagnitude == t.lastErrorMagnitude
  {
    hide Prepared, Settled, FeedForward, Output, Cycles, Config.DeadbandFor, ErrorUsed, Saturated, Steady,
      AbsorbingFF, BinIndex, Observable, StepToward, PhysicalFF, Config.Contribution;
  }

  lemma SettledWindow(cfg: Config, s: State, setpoint: real, measurement: real, dt: real)
    requires cfg.Valid()
    ensures var p, t := Prepared(cfg, s, setpoint, measurement, dt), Settled(cfg, s, setpoint, measurement, dt);
      var e := ErrorUsed(cfg, p, setpoint - measurement);
      && Window(p.hold, p.holdInitial, p.cyclesInHold, p.lastErrorMagnitude) == WindowOf(cfg, s, setpoint, dt)
      && (if p.hold > 0 then t == Held(p, e, cfg.DeadbandFor(setpoint))
          else t.hold == p.hold && t.holdInitial == p.holdInitial && t.cyclesInHold == p.cyclesInHold
               && t.lastErrorMagnitude == p.lastErrorMagnitude)
  {
    hide Inherited, Cycles, FeedForward, MayIntegrate, ClampedIntegral, Config.DeadbandFor, Held;
  }

  /** Every call in the window counts, and shortens it unless the error still closes in; after three times its length it
      ends at once. Outside it nothing is counted. */
  lemma WindowMoves(cfg: Config, s: State, setpoint: real, measurement: real, dt: real, p: Path)
    requires cfg.Valid() && NonZero(s.ff) && Abs(setpoint) >= 0.000001
    requires Leads(cfg, s, setpoint, measurement, dt, p)
    ensures var r, w := Compensated(cfg, s, setpoint, measurement, dt), WindowOf(cfg, s, setpoint, dt);
      Window(r.hold, r.holdInitial, r.cyclesInHold, r.lastErrorMagnitude) ==
        if w.left == 0 then w
        else Window(if w.used + 1 >= 3 * w.whole then 0
                    else if ClosesIn(cfg, setpoint, p.error, w.magnitude) then w.left else w.left - 1,
                    w.whole, w.used + 1, Finite(Abs(p.error)))
  {
    KeepsWindow(cfg, s, setpoint, measurement, dt);
    SettledWindow(cfg, s, setpoint, measurement, dt);
    ErrorIsUsed(cfg, s, setpoint, measurement, dt, p);
    hide Compensated, Prepared, Settled, Leads, Held, ErrorUsed, ClosesIn, Cycles, Config.DeadbandFor, WindowOf;
    var q := Prepared(cfg, s, setpoint, measurement, dt);
    if q.hold > 0 { HeldIs(cfg, q, setpoint, p.error); }
  }

  /** A zero setpoint answers zero and forgets the integral, the setpoint and the calm calls. */
  lemma ZeroForgets(cfg: Config, s: State, setpoint: real, measurement: real, dt: real)
    requires cfg.Valid() && Abs(setpoint) < 0.000001
    ensures var r := Compensated(cfg, s, setpoint, measurement, dt);
      r.lastOutput == 0.0 && r.integral == 0.0 && r.lastSetpoint == 0.0 && r.steadyCount == 0 && r.ff == s.ff
  {}

  // ---- Runs of calm calls ----

  /** A calm call, by some path to its answer. */
  ghost predicate CalmCall(cfg: Config, s: State, r: H.Reading)
    requires cfg.Valid()
  {
    exists p :: Leads(cfg, s, r.setpoint, r.measurement, r.dt, p) && Calm(cfg, r.setpoint, p.feed, p.error)
  }

  ghost predicate AllCalm(cfg: Config, s: State, rs: seq<H.Reading>, setpoint: real, dt: real)
    requires cfg.Valid()
  {
    forall k :: 0 <= k < |rs| ==>
      rs[k].setpoint == setpoint && rs[k].dt == dt && CalmCall(cfg, H.After(cfg, s, rs[..k]), rs[k])
  }

  lemma CalmCounts(cfg: Config, s: State, r: H.Reading)
    requires cfg.Valid() && NonZero(s.ff) && Abs(r.setpoint) >= 0.000001 && CalmCall(cfg, s, r)
    requires s.lastSetpoint == r.setpoint && cfg.ChangeThreshold() > 0.0
    ensures var t, n := Compensated(cfg, s, r.setpoint, r.measurement, r.dt), Cycles(cfg.steadySeconds, r.dt, 1);
      && NonZero(t.ff) && t.lastSetpoint == r.setpoint
      && (s.steadyCount + 1 < n ==> t.steadyCount == s.steadyCount + 1 && t.ff == s.ff)
      && (s.steadyCount + 1 >= n ==> t.steadyCount == 0)
  {
    KeepsNonZero(cfg, s, r);
    var p :| Leads(cfg, s, r.setpoint, r.measurement, r.dt, p) && Calm(cfg, r.setpoint, p.feed, p.error);
    CallCounts(cfg, s, r.setpoint, r.measurement, r.dt, p);
    hide Leads, Compensated, Cycles, Counts, NonZero;
  }

  lemma KeepsNonZero(cfg: Config, s: State, r: H.Reading)
    requires cfg.Valid() && NonZero(s.ff)
    ensures NonZero(Compensated(cfg, s, r.setpoint, r.measurement, r.dt).ff)
  {
    hide NonZero, Compensated;
  }

  /** Counting to n and starting anew. */
  function Wrapped(count: nat, n: nat): nat
    requires n > 0
  {
    if count < n then count else Wrapped(count - n, n)
  }

  lemma {:induction false} WrappedNext(count: nat, n: nat)
    requires n > 0
    ensures Wrapped(count + 1, n) == if Wrapped(count, n) + 1 < n then Wrapped(count, n) + 1 else 0
  {
    if count >= n {
      WrappedNext(count - n, n);
    }
  }

  lemma AfterNext(cfg: Config, s: State, rs: seq<H.Reading>, k: nat)
    requires cfg.Valid() && k < |rs|
    ensures H.After(cfg, s, rs[..k + 1])
         == Compensated(cfg, H.After(cfg, s, rs[..k]), rs[k].setpoint, rs[k].measurement, rs[k].dt)
    ensures H.After(cfg, s, rs[..0]) == s
  {
    assert rs[..k + 1][..k] == rs[..k];
  }

  /** What a run of calm calls leaves. */
  ghost predicate Round(t: State, setpoint: real, count: nat, n: nat)
    requires n > 0
  {
    NonZero(t.ff) && t.lastSetpoint == setpoint && t.steadyCount == Wrapped(count, n)
  }

  lemma CalmAt(cfg: Config, s: State, rs: seq<H.Reading>, setpoint: real, dt: real, k: nat)
    requires cfg.Valid() && AllCalm(cfg, s, rs, setpoint, dt) && k < |rs|
    ensures rs[k].setpoint == setpoint && rs[k].dt == dt && CalmCall(cfg, H.After(cfg, s, rs[..k]), rs[k])
  {
    hide CalmCall, H.After;
  }

  /** Calm calls at one setpoint are counted modulo the steady cycles. */
  lemma {:induction false} CalmRun(cfg: Config, s: State, rs: seq<H.Reading>, setpoint: real, dt: real, n: nat, k: nat)
    requires cfg.Valid() && NonZero(s.ff) && Abs(setpoint) >= 0.000001 && cfg.ChangeThreshold() > 0.0
    requires n == Cycles(cfg.steadySeconds, dt, 1) && s.lastSetpoint == setpoint && s.steadyCount < n
    requires AllCalm(cfg, s, rs, setpoint, dt) && k <= |rs|
    ensures Round(H.After(cfg, s, rs[..k]), setpoint, s.steadyCount + k, n)
  {
    hide AllCalm, CalmCall, NonZero, Cycles, Compensated, Config.ChangeThreshold, Abs;
    if k > 0 {
      CalmRun(cfg, s, rs, setpoint, dt, n, k - 1);
      CalmAt(cfg, s, rs, setpoint, dt, k - 1);
      AfterNext(cfg, s, rs, k - 1);
      CalmStep(cfg, s.steadyCount + k - 1, H.After(cfg, s, rs[..k - 1]), rs[k - 1], n);
    }
  }

  /** And only the call that completes a round may change the table. */
  lemma CalmTable(cfg: Config, s: State, rs: seq<H.Reading>, setpoint: real, dt: real, n: nat, k: nat)
    requires cfg.Valid() && NonZero(s.ff) && Abs(setpoint) >= 0.000001 && cfg.ChangeThreshold() > 0.0
    requires n == Cycles(cfg.steadySeconds, dt, 1) && s.lastSetpoint == setpoint && s.steadyCount < n
    requires AllCalm(cfg, s, rs, setpoint, dt) && k < |rs| && Wrapped(s.steadyCount + k + 1, n) != 0
    ensures H.After(cfg, s, rs[..k + 1]).ff == H.After(cfg, s, rs[..k]).ff
  {
    hide AllCalm, CalmCall, NonZero, Cycles, Compensated, Config.ChangeThreshold, Abs, H.After, Wrapped;
    CalmRun(cfg, s, rs, setpoint, dt, n, k);
    CalmAt(cfg, s, rs, setpoint, dt, k);
    AfterNext(cfg, s, rs, k);
    CalmStep(cfg, s.steadyCount + k, H.After(cfg, s, rs[..k]), rs[k], n);
  }

  lemma CalmStep(cfg: Config, count: nat, s: State, r: H.Reading, n: nat)
    requires cfg.Valid() && Abs(r.setpoint) >= 0.000001 && CalmCall(cfg, s, r) && cfg.ChangeThreshold() > 0.0
    requires 0 < n == Cycles(cfg.steadySeconds, r.dt, 1) && Round(s, r.setpoint, count, n)
    ensures var t := Compensated(cfg, s, r.setpoint, r.measurement, r.dt);
      Round(t, r.setpoint, count + 1, n) && (Wrapped(count + 1, n) != 0 ==> t.ff == s.ff)
  {
    hide CalmCall, NonZero, Cycles, Compensated, Config.ChangeThreshold, Abs, Wrapped;
    CalmCounts(cfg, s, r);
    WrappedNext(count, n);
  }
}
