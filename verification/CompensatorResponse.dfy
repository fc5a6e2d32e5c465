/** What a call of the compensator answers, in the configuration's own quantities: the factor read from the table, the
    error, what the integral becomes and adds, and where limits and rate limit leave the sum. */
module CompensatorResponse {
  import opened Numeric
  import opened FFTable
  import opened CompensatorModel
  import opened CompensatorRuns

  /** y is x, or the limit x is beyond. */
  ghost predicate Nearest(y: real, x: real, lo: real, hi: real) {
    lo <= y <= hi && (lo <= x <= hi ==> y == x) && (x < lo ==> y == lo) && (hi < x ==> y == hi)
  }

  lemma ClampIsNearest(x: real, lo: real, hi: real)
    requires lo <= hi
    ensures Nearest(Clamp(x, lo, hi), x, lo, hi)
  {}

  // ---- The factor and the feed-forward ----

  /** The power between two bins. */
  function BinPower(cfg: Config): real {
    cfg.rated * cfg.step as real / 100.0
  }

  function Weigh(w: real, x: real): real {
    w * x
  }

  /** From x to y, w of the way. */
  function Line(x: real, y: real, w: real): real {
    x + Weigh(y - x, w)
  }

  /** f lies on the line through the two bins around the setpoint, or is the last bin's beyond them. */
  ghost predicate Interpolates(cfg: Config, ff: Table, setpoint: real, f: real)
    requires cfg.Valid()
  {
    var n := BinCount(cfg.step);
    || (exists a: int, w: real :: LiesAt(cfg, ff, setpoint, f, a, w))
    || (setpoint > Weigh(n as real, BinPower(cfg)) && f == Bin(ff, n))
    || (setpoint < Weigh(-n as real, BinPower(cfg)) && f == Bin(ff, -n))
  }

  ghost predicate LiesAt(cfg: Config, ff: Table, setpoint: real, f: real, a: int, w: real)
    requires cfg.Valid()
  {
    && -BinCount(cfg.step) <= a < BinCount(cfg.step) && 0.0 <= w <= 1.0
    && setpoint == Weigh(a as real + w, BinPower(cfg))
    && f == Line(Bin(ff, a), Bin(ff, a + 1), w)
  }

  lemma PositionOf(cfg: Config, setpoint: real, x: real)
    requires cfg.Valid() && setpoint == Weigh(x, BinPower(cfg))
    ensures Position(cfg.rated, cfg.step, setpoint) == x
  {
    var r, k := cfg.rated, cfg.step as real;
    assert setpoint == x * (r * k / 100.0);
    assert setpoint == x * k / 100.0 * r;
    DivOf(setpoint, r, x * k / 100.0);
    DivOf(setpoint / r * 100.0, k, x);
  }

  lemma BinPowerPositive(cfg: Config)
    requires cfg.Valid()
    ensures BinPower(cfg) > 0.0
  {}

  lemma SetpointAt(cfg: Config, setpoint: real)
    requires cfg.Valid()
    ensures setpoint == Weigh(setpoint / BinPower(cfg), BinPower(cfg))
  {
    BinPowerPositive(cfg);
    hide BinPower;
  }

  lemma PositionBeyond(cfg: Config, setpoint: real, n: int)
    requires cfg.Valid()
    ensures setpoint > Weigh(n as real, BinPower(cfg)) ==> Position(cfg.rated, cfg.step, setpoint) > n as real
    ensures setpoint < Weigh(n as real, BinPower(cfg)) ==> Position(cfg.rated, cfg.step, setpoint) < n as real
  {
    var x := setpoint / BinPower(cfg);
    SetpointAt(cfg, setpoint);
    PositionOf(cfg, setpoint, x);
    BinPowerPositive(cfg);
    hide BinPower, Position;
    MulMono(x, n as real, BinPower(cfg));
    MulMono(n as real, x, BinPower(cfg));
  }

  /** The factor of a call is the interpolated one. */
  lemma FactorIsRead(cfg: Config, ff: Table, setpoint: real, f: real)
    requires cfg.Valid() && Interpolates(cfg, ff, setpoint, f)
    ensures Read(ff, cfg.rated, cfg.step, setpoint) == f
  {
    var n := BinCount(cfg.step);
    hide *;
    if a: int, w: real :| LiesAt(cfg, ff, setpoint, f, a, w) {
      ReadAtCell(cfg, ff, setpoint, f, a, w);
    } else {
      InterpolatesBeyond(cfg, ff, setpoint, f);
      ReadBeyond(cfg, ff, setpoint);
    }
  }

  lemma InterpolatesBeyond(cfg: Config, ff: Table, setpoint: real, f: real)
    requires cfg.Valid() && Interpolates(cfg, ff, setpoint, f)
    requires !exists a: int, w: real :: LiesAt(cfg, ff, setpoint, f, a, w)
    ensures var n := BinCount(cfg.step);
      || (setpoint > Weigh(n as real, BinPower(cfg)) && f == Bin(ff, n))
      || (setpoint < Weigh(-n as real, BinPower(cfg)) && f == Bin(ff, -n))
  {
    hide LiesAt, Weigh, BinPower, Bin;
  }

  lemma ReadAtCell(cfg: Config, ff: Table, setpoint: real, f: real, a: int, w: real)
    requires cfg.Valid() && LiesAt(cfg, ff, setpoint, f, a, w)
    ensures Read(ff, cfg.rated, cfg.step, setpoint) == f
  {
    PositionOf(cfg, setpoint, a as real + w);
    hide Position, ReadAt, Bin, BinPower, Weigh, Line;
    ReadLine(ff, BinCount(cfg.step), a, w);
  }

  lemma ReadLine(ff: Table, n: int, a: int, w: real)
    requires -n <= a < n && 0.0 <= w <= 1.0
    ensures ReadAt(ff, n, a as real + w) == Line(Bin(ff, a), Bin(ff, a + 1), w)
  {
    hide ReadAt, Bin;
    ReadOnCell(ff, n, a, a as real + w);
    assert a as real + w - a as real == w;
  }

  lemma ReadBeyond(cfg: Config, ff: Table, setpoint: real)
    requires cfg.Valid()
    ensures var n, f := BinCount(cfg.step), Read(ff, cfg.rated, cfg.step, setpoint);
      && (setpoint > Weigh(n as real, BinPower(cfg)) ==> f == Bin(ff, n))
      && (setpoint < Weigh(-n as real, BinPower(cfg)) ==> f == Bin(ff, -n))
  {
    var n := BinCount(cfg.step);
    PositionBeyond(cfg, setpoint, n);
    PositionBeyond(cfg, setpoint, -n);
    hide Position, ReadAt, Bin, BinPower, Weigh;
    ReadSaturates(ff, n, Position(cfg.rated, cfg.step, setpoint));
  }

  /** u is the feed-forward with factor f: multiplied when discharging, divided when charging. */
  ghost predicate FeedsForward(f: real, setpoint: real, u: real) {
    if setpoint >= 0.0 then u == Weigh(f, setpoint)
    else if Abs(f) > 0.000001 then Weigh(f, u) == setpoint
    else u == setpoint
  }

  lemma FeedForwardIs(cfg: Config, ff: Table, setpoint: real, f: real, u: real)
    requires cfg.Valid() && Interpolates(cfg, ff, setpoint, f) && FeedsForward(f, setpoint, u)
    ensures FeedForward(cfg, ff, setpoint) == u
  {
    FactorIsRead(cfg, ff, setpoint, f);
    FeedOf(f, setpoint, u);
    hide Read, Interpolates, FeedsForward;
  }

  lemma FeedOf(f: real, setpoint: real, u: real)
    requires FeedsForward(f, setpoint, u)
    ensures setpoint >= 0.0 ==> f * setpoint == u
    ensures setpoint < 0.0 ==> u == if Abs(f) > 0.000001 then setpoint / f else setpoint
  {
    if setpoint < 0.0 && Abs(f) > 0.000001 {
      DivOf(setpoint, f, u);
    }
  }

  // ---- The error and the deadband ----

  /** The error that counts: smoothed if that is on. */
  ghost predicate ErrorIs(cfg: Config, s: State, setpoint: real, measurement: real, e: real) {
    e == if cfg.emaAlpha > 0.0
         then Weigh(cfg.emaAlpha, setpoint - measurement) + Weigh(1.0 - cfg.emaAlpha, s.filteredError)
         else setpoint - measurement
  }

  /** x is beyond three sigma of the noise and, strictly or not, beyond the share of rated power or of the setpoint. */
  ghost predicate Counts(cfg: Config, setpoint: real, x: real, strict: bool) {
    && Beyond(x, 0.0, strict)
    && (cfg.noise.Some? && cfg.noise.value > 0.0 ==> Beyond(x, 3.0 * cfg.noise.value, strict))
    && (|| Beyond(x, cfg.deadbandRatio * cfg.rated, strict)
        || (cfg.deadbandSetpointRatio > 0.0 && Beyond(x, Abs(setpoint) * cfg.deadbandSetpointRatio, strict)))
  }

  ghost predicate Beyond(x: real, d: real, strict: bool) {
    if strict then d < x else d <= x
  }

  lemma CountsIff(cfg: Config, setpoint: real, x: real, strict: bool)
    ensures Counts(cfg, setpoint, x, strict) <==> Beyond(x, cfg.DeadbandFor(setpoint), strict)
  {
    assert Abs(setpoint) >= 0.0;
  }

  // ---- The integral ----

  /** Whether the call changes the setpoint. */
  ghost predicate Jumps(cfg: Config, s: State, setpoint: real) {
    Abs(setpoint - s.lastSetpoint) >= cfg.changeRatio * cfg.rated
  }

  /** Whether the hold window freezes the integral: with a change, if the hold time rounds to a cycle at least. */
  ghost predicate Frozen(cfg: Config, s: State, setpoint: real, dt: real) {
    if Jumps(cfg, s, setpoint) then dt > 0.0 && 2.0 * cfg.holdSeconds > dt else s.hold > 0
  }

  /** Whether the error is integrated: beyond the deadband, and at a limit only if it pulls back from it. */
  ghost predicate Integrates(cfg: Config, setpoint: real, u: real, e: real) {
    || (u >= cfg.outputMax && Counts(cfg, setpoint, -e, true))
    || (u <= cfg.outputMin && Counts(cfg, setpoint, e, true))
    || (cfg.outputMin < u < cfg.outputMax && Counts(cfg, setpoint, Abs(e), false))
  }

  /** i is x within plus and minus rated power times the integral time, where those bound it. */
  ghost predicate IntegralIs(cfg: Config, x: real, i: real) {
    if cfg.integralTime.Some? && cfg.integralTime.value > 0.0 && cfg.integralMaxRatio != 0.0
    then Nearest(i, x, -Weigh(cfg.rated, cfg.integralTime.value), Weigh(cfg.rated, cfg.integralTime.value))
    else i == x
  }

  /** What an integral of i adds: integral_max_ratio of rated power per rated power times integral time. */
  ghost predicate Adds(cfg: Config, i: real, c: real) {
    if cfg.integralTime.Some? && cfg.integralTime.value > 0.0
    then Weigh(cfg.integralTime.value, c) == Weigh(cfg.integralMaxRatio, i)
    else c == 0.0
  }

  lemma ContributionIs(cfg: Config, i: real, c: real)
    requires Adds(cfg, i, c)
    ensures cfg.Contribution(i) == c
  {
    if cfg.integralTime.Some? && cfg.integralTime.value > 0.0 {
      RatioTimes(cfg.integralMaxRatio, cfg.integralTime.value, i, c);
    }
  }

  lemma RatioTimes(m: real, t: real, i: real, c: real)
    requires t > 0.0 && t * c == m * i
    ensures m / t * i == c
  {
    assert m / t * i == m * i / t;
    DivOf(m * i, t, c);
  }

  lemma ClampedIntegralIs(cfg: Config, x: real, i: real)
    requires cfg.Valid() && IntegralIs(cfg, x, i)
    ensures ClampedIntegral(cfg, x) == i
  {
    BoundIs(cfg);
    hide Config.Ki, Weigh, Config.IntegralBound;
    if cfg.Ki() != 0.0 {
      var bound := Weigh(cfg.rated, cfg.integralTime.value);
      ClampIsNearest(x, -bound, bound);
    }
  }

  lemma BoundIs(cfg: Config)
    requires cfg.Valid()
    ensures cfg.Ki() != 0.0 <==>
      cfg.integralTime.Some? && cfg.integralTime.value > 0.0 && cfg.integralMaxRatio != 0.0
    ensures cfg.Ki() != 0.0 ==>
      && cfg.IntegralBound() == Weigh(cfg.rated, cfg.integralTime.value)
      && Weigh(cfg.rated, cfg.integralTime.value) > 0.0
  {
    if cfg.integralTime.Some? && cfg.integralTime.value > 0.0 && cfg.integralMaxRatio != 0.0 {
      RatioNonZero(cfg.integralMaxRatio, cfg.integralTime.value);
      RatioSign(cfg.integralMaxRatio, cfg.integralTime.value, cfg.rated);
    }
  }

  lemma RatioNonZero(m: real, t: real)
    requires t > 0.0 && m != 0.0
    ensures m / t != 0.0
  {
    assert m == m / t * t;
  }

  // ---- The answer ----

  /** out is y, or as far from the last output on y's side as the rate limit lets it go. */
  ghost predicate Slews(cfg: Config, last: real, y: real, dt: real, out: real) {
    if cfg.rateLimit.None? || cfg.rateLimit.value <= 0.0 then out == y
    else
      var most := Weigh(cfg.rateLimit.value, dt);
      && (Abs(y - last) <= most ==> out == y)
      && (Abs(y - last) > most ==> out == if y >= last then last + Abs(most) else last - Abs(most))
  }

  /** The values on the way from a call to its answer. */
  datatype Path = Path(factor: real, feed: real, error: real, integral: real, added: real, target: real)

  ghost predicate Leads(cfg: Config, s: State, setpoint: real, measurement: real, dt: real, p: Path)
    requires cfg.Valid()
  {
    var jumps := Jumps(cfg, s, setpoint);
    var before := if jumps then 0.0 else s.integral;
    && Interpolates(cfg, if jumps then Inherited(cfg, s.ff, s.lastSetpoint, setpoint) else s.ff, setpoint, p.factor)
    && FeedsForward(p.factor, setpoint, p.feed)
    && ErrorIs(cfg, s, setpoint, measurement, p.error)
    && (if !Frozen(cfg, s, setpoint, dt) && Integrates(cfg, setpoint, p.feed, p.error)
        then IntegralIs(cfg, before + Weigh(p.error, dt), p.integral)
        else p.integral == before)
    && Adds(cfg, p.integral, p.added)
    && Nearest(p.target, p.feed + p.added, cfg.outputMin, cfg.outputMax)
  }

  lemma HoldCycles(cfg: Config, dt: real)
    ensures Cycles(cfg.holdSeconds, dt, 0) > 0 <==> dt > 0.0 && 2.0 * cfg.holdSeconds > dt
  {
    if dt > 0.0 {
      var x := cfg.holdSeconds / dt;
      assert x * dt == cfg.holdSeconds;
      assert 2.0 * cfg.holdSeconds > dt <==> x > 0.5 by {
        MulStrict(0.5, x, dt);
        MulMono(x, 0.5, dt);
      }
    }
  }

  lemma PreparedIs(cfg: Config, s: State, setpoint: real, measurement: real, dt: real)
    requires cfg.Valid()
    ensures var p, jumps := Prepared(cfg, s, setpoint, measurement, dt), Jumps(cfg, s, setpoint);
      && p.ff == (if jumps then Inherited(cfg, s.ff, s.lastSetpoint, setpoint) else s.ff)
      && p.integral == (if jumps then 0.0 else s.integral) && p.lastOutput == s.lastOutput
      && (p.hold > 0 <==> Frozen(cfg, s, setpoint, dt))
      && ErrorIs(cfg, s, setpoint, measurement, ErrorUsed(cfg, p, setpoint - measurement))
  {
    HoldCycles(cfg, dt);
    hide Inherited, Cycles;
  }

  lemma MayIntegrateIff(cfg: Config, setpoint: real, u: real, e: real)
    ensures MayIntegrate(cfg, u, e, cfg.DeadbandFor(setpoint)) <==> Integrates(cfg, setpoint, u, e)
  {
    CountsIff(cfg, setpoint, e, true);
    CountsIff(cfg, setpoint, -e, true);
    CountsIff(cfg, setpoint, Abs(e), false);
    hide Counts, Config.DeadbandFor;
  }

  lemma SettledForm(cfg: Config, s: State, setpoint: real, measurement: real, dt: real)
    requires cfg.Valid()
    ensures var p, t := Prepared(cfg, s, setpoint, measurement, dt), Settled(cfg, s, setpoint, measurement, dt);
      var u, e := FeedForward(cfg, p.ff, setpoint), ErrorUsed(cfg, p, setpoint - measurement);
      && t.lastOutput == p.lastOutput
      && t.integral == if p.hold == 0 && MayIntegrate(cfg, u, e, cfg.DeadbandFor(setpoint))
                       then ClampedIntegral(cfg, p.integral + Weigh(e, dt)) else p.integral
  {
    hide Prepared, FeedForward, ErrorUsed, MayIntegrate, ClampedIntegral, Config.DeadbandFor;
  }

  /** The state before the output is formed. */
  lemma SettledIs(cfg: Config, s: State, setpoint: real, measurement: real, dt: real, p: Path)
    requires cfg.Valid() && Leads(cfg, s, setpoint, measurement, dt, p)
    ensures var t := Settled(cfg, s, setpoint, measurement, dt);
      && t.integral == p.integral && t.lastOutput == s.lastOutput
      && FeedForward(cfg, Prepared(cfg, s, setpoint, measurement, dt).ff, setpoint) == p.feed
  {
    PreparedIs(cfg, s, setpoint, measurement, dt);
    var q := Prepared(cfg, s, setpoint, measurement, dt);
    FeedForwardIs(cfg, q.ff, setpoint, p.factor, p.feed);
    MayIntegrateIff(cfg, setpoint, p.feed, p.error);
    hide *;
    SettledForm(cfg, s, setpoint, measurement, dt);
    if !Frozen(cfg, s, setpoint, dt) && Integrates(cfg, setpoint, p.feed, p.error) {
      ClampedIntegralIs(cfg, q.integral + Weigh(p.error, dt), p.integral);
    }
  }

  lemma OutputIs(cfg: Config, s: State, u: real, dt: real, c: real, y: real)
    requires cfg.Contribution(s.integral) == c && Nearest(y, u + c, cfg.outputMin, cfg.outputMax)
    ensures Slews(cfg, s.lastOutput, y, dt, Output(cfg, s, u, dt))
  {
    hide Config.Contribution;
    ClampIsNearest(u + c, cfg.outputMin, cfg.outputMax);
  }

  lemma AnswerIsOutput(cfg: Config, s: State, setpoint: real, measurement: real, dt: real)
    requires cfg.Valid() && NonZero(s.ff) && !IsZero(setpoint)
    ensures Compensated(cfg, s, setpoint, measurement, dt).lastOutput
         == Output(cfg, Settled(cfg, s, setpoint, measurement, dt),
                   FeedForward(cfg, Prepared(cfg, s, setpoint, measurement, dt).ff, setpoint), dt)
  {
    hide Prepared, Settled, FeedForward, Output, Learned, Cycles, Config.DeadbandFor, ErrorUsed;
  }

  /** Every call with a nonzero setpoint, in every state: the answer is the feed-forward plus what the integral adds,
      limited, or the rate limit's step toward that. */
  lemma CallAnswers(cfg: Config, s: State, setpoint: real, measurement: real, dt: real, p: Path)
    requires cfg.Valid() && NonZero(s.ff) && Abs(setpoint) >= 0.000001
    requires Leads(cfg, s, setpoint, measurement, dt, p)
    ensures Slews(cfg, s.lastOutput, p.target, dt, Compensated(cfg, s, setpoint, measurement, dt).lastOutput)
  {
    SettledIs(cfg, s, setpoint, measurement, dt, p);
    AnswerIsOutput(cfg, s, setpoint, measurement, dt);
    ContributionIs(cfg, p.integral, p.added);
    hide Prepared, Settled, FeedForward, Output, Compensated, Interpolates, FeedsForward, Nearest, Slews, Integrates,
      IntegralIs, Adds, Config.Contribution;
    OutputIs(cfg, Settled(cfg, s, setpoint, measurement, dt), p.feed, dt, p.added, p.target);
  }

  // ---- Every call has such a path ----

  lemma ReadInterpolates(cfg: Config, ff: Table, setpoint: real)
    requires cfg.Valid() && setpoint != 0.0
    ensures Interpolates(cfg, ff, setpoint, Read(ff, cfg.rated, cfg.step, setpoint))
  {
    var n, x := BinCount(cfg.step), setpoint / BinPower(cfg);
    SetpointAt(cfg, setpoint);
    ReadBeyond(cfg, ff, setpoint);
    WeighOrder(cfg, n as real, x);
    WeighOrder(cfg, x, -n as real);
    hide Read, Bin, BinPower, Weigh, LiesAt;
    if -n as real <= x <= n as real {
      CellOf(cfg, ff, setpoint, x);
    }
  }

  lemma WeighOrder(cfg: Config, x: real, y: real)
    requires cfg.Valid()
    ensures x < y ==> Weigh(x, BinPower(cfg)) < Weigh(y, BinPower(cfg))
    ensures Weigh(0.0, BinPower(cfg)) == 0.0
  {
    BinPowerPositive(cfg);
    hide BinPower;
    MulStrict(x, y, BinPower(cfg));
  }

  lemma CellOf(cfg: Config, ff: Table, setpoint: real, x: real)
    requires cfg.Valid() && setpoint == Weigh(x, BinPower(cfg)) && 0 < BinCount(cfg.step)
    requires -BinCount(cfg.step) as real <= x <= BinCount(cfg.step) as real
    ensures exists a: int, w: real :: LiesAt(cfg, ff, setpoint, Read(ff, cfg.rated, cfg.step, setpoint), a, w)
  {
    hide BinCount, Weigh, BinPower, LiesAt, Read;
    var a, w := CellIndex(BinCount(cfg.step), x);
    CellLiesAt(cfg, ff, setpoint, a, w);
  }

  lemma CellIndex(n: int, x: real) returns (a: int, w: real)
    requires 0 < n && -n as real <= x <= n as real
    ensures -n <= a < n && 0.0 <= w <= 1.0 && a as real + w == x
  {
    a := if x == n as real then n - 1 else x.Floor;
    w := x - a as real;
  }

  lemma CellLiesAt(cfg: Config, ff: Table, setpoint: real, a: int, w: real)
    requires cfg.Valid() && -BinCount(cfg.step) <= a < BinCount(cfg.step) && 0.0 <= w <= 1.0
    requires setpoint == Weigh(a as real + w, BinPower(cfg))
    ensures LiesAt(cfg, ff, setpoint, Read(ff, cfg.rated, cfg.step, setpoint), a, w)
  {
    PositionOf(cfg, setpoint, a as real + w);
    hide Position, ReadAt, Bin, BinPower, Weigh, Line;
    ReadLine(ff, BinCount(cfg.step), a, w);
  }

  lemma PathExists(cfg: Config, s: State, setpoint: real, measurement: real, dt: real) returns (p: Path)
    requires cfg.Valid() && setpoint != 0.0 && cfg.outputMin <= cfg.outputMax
    ensures Leads(cfg, s, setpoint, measurement, dt, p)
  {
    var jumps := Jumps(cfg, s, setpoint);
    var before := if jumps then 0.0 else s.integral;
    var ff := if jumps then Inherited(cfg, s.ff, s.lastSetpoint, setpoint) else s.ff;
    var factor := Read(ff, cfg.rated, cfg.step, setpoint);
    ReadInterpolates(cfg, ff, setpoint);
    var feed := FeedForward(cfg, ff, setpoint);
    var error := if cfg.emaAlpha > 0.0
                 then Weigh(cfg.emaAlpha, setpoint - measurement) + Weigh(1.0 - cfg.emaAlpha, s.filteredError)
                 else setpoint - measurement;
    hide Inherited, Read, Interpolates, Counts;
    var x := before + Weigh(error, dt);
    var bound := if cfg.integralTime.Some? then Weigh(cfg.rated, cfg.integralTime.value) else 0.0;
    var integral := if Frozen(cfg, s, setpoint, dt) || !Integrates(cfg, setpoint, feed, error) then before
                    else if cfg.integralTime.Some? && cfg.integralTime.value > 0.0 && cfg.integralMaxRatio != 0.0
                    then Clamp(x, -bound, bound) else x;
    var added := cfg.Contribution(integral);
    p := Path(factor, feed, error, integral, added, Clamp(feed + added, cfg.outputMin, cfg.outputMax));
    IntegralExists(cfg, x);
    AddedExists(cfg, integral);
    FeedExists(cfg, ff, setpoint);
    ClampIsNearest(feed + added, cfg.outputMin, cfg.outputMax);
  }

  lemma IntegralExists(cfg: Config, x: real)
    requires cfg.Valid()
    ensures var bound := if cfg.integralTime.Some? then Weigh(cfg.rated, cfg.integralTime.value) else 0.0;
      IntegralIs(cfg, x, if cfg.integralTime.Some? && cfg.integralTime.value > 0.0 && cfg.integralMaxRatio != 0.0
                         then Clamp(x, -bound, bound) else x)
  {
    if cfg.integralTime.Some? && cfg.integralTime.value > 0.0 {
      MulMono(0.0, cfg.rated, cfg.integralTime.value);
    }
  }

  lemma AddedExists(cfg: Config, i: real)
    ensures Adds(cfg, i, cfg.Contribution(i))
  {
    if cfg.integralTime.Some? && cfg.integralTime.value > 0.0 {
      var t, m := cfg.integralTime.value, cfg.integralMaxRatio;
      assert t * (m / t) == m;
      assert t * (m / t * i) == t * (m / t) * i;
    }
  }

  lemma FeedExists(cfg: Config, ff: Table, setpoint: real)
    requires cfg.Valid()
    ensures FeedsForward(Read(ff, cfg.rated, cfg.step, setpoint), setpoint, FeedForward(cfg, ff, setpoint))
  {
    hide Read;
  }

  // ---- The answer moves against the measurement ----

  lemma WeighMono(x: real, y: real, k: real)
    requires 0.0 <= k
    ensures x <= y ==> Weigh(x, k) <= Weigh(y, k)
    ensures Weigh(0.0, k) == 0.0
  {
    MulMono(x, y, k);
  }

  lemma ErrorPushes(cfg: Config, i: real, u: real, deadband: real, e: real, less: real, dt: real)
    requires ClampedIntegral(cfg, i) == i && deadband >= 0.0 && less <= e && 0.0 < dt
    ensures (if MayIntegrate(cfg, u, less, deadband) then ClampedIntegral(cfg, i + Weigh(less, dt)) else i)
         <= (if MayIntegrate(cfg, u, e, deadband) then ClampedIntegral(cfg, i + Weigh(e, dt)) else i)
  {
    WeighMono(less, e, dt);
    WeighMono(0.0, e, dt);
    WeighMono(less, 0.0, dt);
    hide ClampedIntegral, Weigh;
    ClampMono(cfg, i + Weigh(less, dt), i + Weigh(e, dt));
    if less <= 0.0 { ClampMono(cfg, i + Weigh(less, dt), i); }
    if 0.0 <= e { ClampMono(cfg, i, i + Weigh(e, dt)); }
  }

  lemma OutputPushes(cfg: Config, s: State, t: State, u: real, dt: real)
    requires t.integral <= s.integral && t.lastOutput == s.lastOutput && 0.0 < dt && cfg.integralMaxRatio >= 0.0
    ensures Output(cfg, t, u, dt) <= Output(cfg, s, u, dt)
  {
    ContributionPushes(cfg, t.integral, s.integral);
    if cfg.rateLimit.Some? && cfg.rateLimit.value > 0.0 { MulMono(0.0, cfg.rateLimit.value, dt); }
    hide Config.Contribution;
  }

  lemma ContributionPushes(cfg: Config, i: real, more: real)
    requires cfg.integralMaxRatio >= 0.0 && i <= more
    ensures cfg.Contribution(i) <= cfg.Contribution(more)
  {
    if cfg.integralTime.Some? && cfg.integralTime.value > 0.0 {
      DivMono(0.0, cfg.integralMaxRatio, cfg.integralTime.value);
    }
    MulMono(i, more, cfg.Ki());
    hide Config.Ki;
  }

  lemma DeadbandNonNegative(cfg: Config, setpoint: real)
    ensures cfg.DeadbandFor(setpoint) >= 0.0
  {}

  lemma SamePrepared(cfg: Config, s: State, setpoint: real, measurement: real, more: real, dt: real)
    requires cfg.Valid() && measurement <= more
    ensures var p, q := Prepared(cfg, s, setpoint, measurement, dt), Prepared(cfg, s, setpoint, more, dt);
      && q.ff == p.ff && q.hold == p.hold && q.integral == p.integral && q.lastOutput == p.lastOutput
      && ErrorUsed(cfg, q, setpoint - more) <= ErrorUsed(cfg, p, setpoint - measurement)
  {
    MulMono(setpoint - more, setpoint - measurement, cfg.emaAlpha);
    hide Inherited, Cycles;
  }

  /** In the same state a call that measures less never answers less: the compensator pushes the plant back. */
  lemma PushesBack(cfg: Config, s: State, setpoint: real, measurement: real, more: real, dt: real)
    requires cfg.Valid() && NonZero(s.ff) && ClampedIntegral(cfg, s.integral) == s.integral
    requires cfg.integralMaxRatio >= 0.0 && 0.0 < dt && measurement <= more
    ensures Compensated(cfg, s, setpoint, more, dt).lastOutput
         <= Compensated(cfg, s, setpoint, measurement, dt).lastOutput
  {
    if !IsZero(setpoint) {
      AnswerIsOutput(cfg, s, setpoint, measurement, dt);
      AnswerIsOutput(cfg, s, setpoint, more, dt);
      SamePrepared(cfg, s, setpoint, measurement, more, dt);
      PreparedIs(cfg, s, setpoint, measurement, dt);
      SettledForm(cfg, s, setpoint, measurement, dt);
      SettledForm(cfg, s, setpoint, more, dt);
      DeadbandNonNegative(cfg, setpoint);
      ZeroClamped(cfg);
      hide *;
      var p, q := Prepared(cfg, s, setpoint, measurement, dt), Prepared(cfg, s, setpoint, more, dt);
      var u := FeedForward(cfg, p.ff, setpoint);
      ErrorPushes(cfg, p.integral, u, cfg.DeadbandFor(setpoint), ErrorUsed(cfg, p, setpoint - measurement),
                  ErrorUsed(cfg, q, setpoint - more), dt);
      OutputPushes(cfg, Settled(cfg, s, setpoint, measurement, dt), Settled(cfg, s, setpoint, more, dt), u, dt);
    } else {
      hide Prepared, Settled;
    }
  }

  lemma ZeroClamped(cfg: Config)
    requires cfg.Valid()
    ensures ClampedIntegral(cfg, 0.0) == 0.0
  {
    if cfg.Ki() != 0.0 {
      RatioSign(cfg.integralMaxRatio, cfg.integralTime.value, cfg.rated);
    }
  }

  /** The integral of a run is within its clamp. */
  lemma RunClamped(cfg: Config, s: State)
    requires cfg.Valid() && Inv(cfg, s)
    ensures ClampedIntegral(cfg, s.integral) == s.integral
  {
    if cfg.Ki() != 0.0 {
      var t := cfg.integralTime.value;
      RatioSign(cfg.integralMaxRatio, t, cfg.rated);
      WithinRated(cfg.integralMaxRatio, t, cfg.rated, s.integral);
    }
  }

  lemma WithinRated(m: real, t: real, rated: real, i: real)
    requires t > 0.0 && m / t != 0.0 && Abs(m / t * i) <= Abs(m) * rated
    ensures Abs(i) <= t * rated
  {
    var k := m / t;
    assert m == k * t;
    assert Abs(m) == Abs(k) * t;
    assert Abs(k * i) == Abs(k) * Abs(i);
    assert Abs(m) * rated == Abs(k) * (t * rated);
    MulStrict(t * rated, Abs(i), Abs(k));
  }

  /** On every run. */
  lemma RunPushesBack(cfg: Config, es: seq<Event>, setpoint: real, measurement: real, more: real, dt: real)
    requires Sane(cfg) && AllAllowed(cfg, es) && cfg.integralMaxRatio >= 0.0 && 0.0 < dt && measurement <= more
    ensures Compensated(cfg, Run(cfg, es), setpoint, more, dt).lastOutput
         <= Compensated(cfg, Run(cfg, es), setpoint, measurement, dt).lastOutput
  {
    hide Run, Compensated, Inv, ClampedIntegral;
    RunClamped(cfg, Run(cfg, es));
    PushesBack(cfg, Run(cfg, es), setpoint, measurement, more, dt);
  }

  // ---- Single bins ----

  /** A known bin and a ratio that is not negative: the bin takes the ratio, limited. Anything else changes nothing. */
  lemma BinTakes(cfg: Config, s: State, idx: int, ratio: real)
    requires cfg.ffMin <= cfg.ffMax
    ensures if idx in s.ff && ratio >= 0.0
            then exists x :: Nearest(x, ratio, cfg.ffMin, cfg.ffMax)
                             && WithBin(cfg, s, idx, ratio) == s.(ff := s.ff[idx := x])
            else WithBin(cfg, s, idx, ratio) == s
  {
    ClampIsNearest(ratio, cfg.ffMin, cfg.ffMax);
    hide Nearest;
    assert Nearest(cfg.Bound(ratio), ratio, cfg.ffMin, cfg.ffMax);
  }
}
