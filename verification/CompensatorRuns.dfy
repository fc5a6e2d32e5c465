/** Bounds every run of the compensator keeps, whatever it measures. */
module CompensatorRuns {
  import opened Compensator
  import opened Numeric
  import opened FFTable
  import opened CompensatorModel

  datatype Event =
    | Call(setpoint: real, measurement: real, dt: real)
    | UpdateBin(idx: int, ratio: real)
    | Load(table: Table)
    | Reset
    | ResetTable

  ghost predicate InRange(cfg: Config, t: Table) {
    forall i :: i in t ==> cfg.ffMin <= t[i] <= cfg.ffMax
  }

  /** Limits that make sense: output zero and factor one are allowed. */
  predicate Sane(cfg: Config) {
    && cfg.Valid()
    && cfg.outputMin <= 0.0 <= cfg.outputMax
    && cfg.ffMin <= 1.0 <= cfg.ffMax
  }

  predicate RateLimits(cfg: Config) {
    cfg.rateLimit.Some? && cfg.rateLimit.value > 0.0
  }

  /** Under a rate limit time does not run backwards, and a loaded table holds factors within the limits:
      the code does not clamp what it loads. */
  ghost predicate Allowed(cfg: Config, e: Event) {
    && (e.Call? && RateLimits(cfg) ==> 0.0 <= e.dt)
    && (e.Load? ==> InRange(cfg, e.table))
  }

  ghost predicate AllAllowed(cfg: Config, es: seq<Event>) {
    forall i :: 0 <= i < |es| ==> Allowed(cfg, es[i])
  }

  function Next(cfg: Config, s: State, e: Event): State
    requires cfg.Valid()
  {
    match e
    case Call(setpoint, measurement, dt) => Compensated(cfg, s, setpoint, measurement, dt)
    case UpdateBin(idx, ratio) => WithBin(cfg, s, idx, ratio)
    case Load(table) => WithTable(s, table)
    case Reset => Initial(s.ff)
    case ResetTable => s.(ff := Fresh(cfg.step))
  }

  ghost predicate Inv(cfg: Config, s: State)
    requires cfg.Valid()
  {
    && cfg.outputMin <= s.lastOutput <= cfg.outputMax
    && Full(s.ff, BinCount(cfg.step))
    && InRange(cfg, s.ff)
    && Abs(cfg.Contribution(s.integral)) <= Abs(cfg.integralMaxRatio) * cfg.rated
    && (s.hold > 0 ==> s.integral == 0.0)
  }

  lemma ContributionOfZero(cfg: Config)
    requires cfg.Valid()
    ensures Abs(cfg.Contribution(0.0)) <= Abs(cfg.integralMaxRatio) * cfg.rated
  {
    MulMono(0.0, Abs(cfg.integralMaxRatio), cfg.rated);
  }

  lemma NoContribution(cfg: Config, x: real)
    requires cfg.Ki() == 0.0
    ensures cfg.Contribution(x) == cfg.Contribution(0.0)
  {}

  lemma BoundTimesKi(cfg: Config)
    requires cfg.Valid() && cfg.Ki() != 0.0
    ensures cfg.IntegralBound() > 0.0 && cfg.Contribution(cfg.IntegralBound()) == cfg.integralMaxRatio * cfg.rated
  {
    RatioSign(cfg.integralMaxRatio, cfg.integralTime.value, cfg.rated);
    TimesQuotient(cfg.integralMaxRatio * cfg.rated, cfg.Ki());
  }

  lemma TimesQuotient(p: real, k: real)
    requires k != 0.0
    ensures k * (p / k) == p
  {}

  lemma ContributionWithin(cfg: Config, x: real, m: real)
    requires 0.0 <= m && -m <= x <= m
    ensures Abs(cfg.Contribution(x)) <= Abs(cfg.Contribution(m))
  {
    hide Config.Ki;
    Scaled(cfg.Ki(), x, m);
  }

  /** The integral clamp is a bound on what the integral adds to the output. */
  lemma ContributionBounded(cfg: Config, x: real)
    requires cfg.Valid()
    ensures Abs(cfg.Contribution(ClampedIntegral(cfg, x))) <= Abs(cfg.integralMaxRatio) * cfg.rated
  {
    ContributionOfZero(cfg);
    hide Config.Ki, Config.IntegralBound, Config.Contribution;
    if cfg.Ki() == 0.0 {
      NoContribution(cfg, x);
    } else {
      BoundTimesKi(cfg);
      AbsProduct(cfg.integralMaxRatio, cfg.rated);
      ContributionWithin(cfg, ClampedIntegral(cfg, x), cfg.IntegralBound());
    }
  }

  lemma RatioSign(ratio: real, time: real, rated: real)
    requires time > 0.0 && rated > 0.0 && ratio / time != 0.0
    ensures ratio * rated / (ratio / time) == time * rated && time * rated > 0.0
  {
    var k := ratio / time;
    assert ratio == k * time;
    assert ratio * rated == k * (time * rated);
    DivOf(ratio * rated, k, time * rated);
  }

  lemma Scaled(k: real, y: real, m: real)
    requires -m <= y <= m
    ensures Abs(k * y) <= Abs(k * m)
  {
    MulMono(y, m, Abs(k));
    MulMono(-m, y, Abs(k));
  }

  lemma AbsProduct(a: real, b: real)
    requires b > 0.0
    ensures Abs(a * b) == Abs(a) * b
  {}

  lemma TablePrepared(cfg: Config, s: State, setpoint: real, measurement: real, dt: real)
    requires Sane(cfg) && Inv(cfg, s)
    ensures var p := Prepared(cfg, s, setpoint, measurement, dt);
            p.ff.Keys == s.ff.Keys && InRange(cfg, p.ff) && p.lastOutput == s.lastOutput
            && (p.hold > 0 ==> p.integral == 0.0)
            && (p.integral == s.integral || p.integral == 0.0)
  {
    hide Read, BinIndex;
    BinInTable(cfg, s.lastSetpoint);
    BinInTable(cfg, setpoint);
  }

  lemma BinInTable(cfg: Config, setpoint: real)
    requires cfg.Valid()
    ensures InBins(BinIndex(cfg.rated, cfg.step, setpoint), BinCount(cfg.step))
  {}

  /** Nothing learned leaves the factor limits or touches the rest of the state. */
  lemma LearnedInRange(cfg: Config, s: State, setpoint: real, measurement: real, error: real, ffOutput: real,
                       output: real, deadband: real, steadyCycles: nat)
    requires Sane(cfg) && NonZero(s.ff) && InRange(cfg, s.ff)
    requires Full(s.ff, BinCount(cfg.step))
    ensures var u := Learned(cfg, s, setpoint, measurement, error, ffOutput, output, deadband, steadyCycles);
            && Full(u.ff, BinCount(cfg.step))
            && InRange(cfg, u.ff) && u.hold == s.hold
            && (u.integral == s.integral || u.integral == 0.0)
  {
    hide Read, BinIndex, AbsorbingFF, PhysicalFF, Config.Contribution, Observable;
    BinInTable(cfg, setpoint);
    assert forall x: real :: cfg.ffMin <= cfg.Bound(x) <= cfg.ffMax;
  }

  /** The output stays within its limits, and a rate limit bounds the step from the last one. */
  lemma OutputBounded(cfg: Config, s: State, ffOutput: real, dt: real)
    requires Sane(cfg) && (RateLimits(cfg) ==> 0.0 <= dt) && cfg.outputMin <= s.lastOutput <= cfg.outputMax
    ensures cfg.outputMin <= Output(cfg, s, ffOutput, dt) <= cfg.outputMax
    ensures RateLimits(cfg) ==> Abs(Output(cfg, s, ffOutput, dt) - s.lastOutput) <= cfg.rateLimit.value * dt
  {
    hide Config.Contribution;
    if RateLimits(cfg) {
      MulMono(0.0, cfg.rateLimit.value, dt);
    }
  }

  ghost predicate KeepsLimits(cfg: Config, dt: real) {
    forall s: State, ffOutput: real :: cfg.outputMin <= s.lastOutput <= cfg.outputMax ==>
      cfg.outputMin <= Output(cfg, s, ffOutput, dt) <= cfg.outputMax
  }

  /** An interval keeps the output within its limits exactly when it is not negative, or no rate limit is set. */
  lemma OutputBoundedIff(cfg: Config, dt: real)
    requires Sane(cfg)
    ensures KeepsLimits(cfg, dt) <==> !RateLimits(cfg) || 0.0 <= dt
  {
    if !RateLimits(cfg) || 0.0 <= dt {
      forall s: State, ffOutput: real | cfg.outputMin <= s.lastOutput <= cfg.outputMax
        ensures cfg.outputMin <= Output(cfg, s, ffOutput, dt) <= cfg.outputMax
      {
        OutputBounded(cfg, s, ffOutput, dt);
      }
    } else {
      var s := Initial(map[]).(lastOutput := cfg.outputMax);
      NegativeIntervalEscapes(cfg, s, cfg.outputMax, dt);
      assert Output(cfg, s, cfg.outputMax, dt) > cfg.outputMax;
    }
  }

  lemma SettledKeeps(cfg: Config, s: State, setpoint: real, measurement: real, dt: real)
    requires Sane(cfg) && Inv(cfg, s)
    ensures var p := Prepared(cfg, s, setpoint, measurement, dt);
            var t := Settled(cfg, s, setpoint, measurement, dt);
            && t.ff == p.ff && t.lastOutput == s.lastOutput
            && Full(t.ff, BinCount(cfg.step)) && InRange(cfg, t.ff)
            && Abs(cfg.Contribution(t.integral)) <= Abs(cfg.integralMaxRatio) * cfg.rated
            && (t.hold > 0 ==> t.integral == 0.0)
  {
    hide Prepared, FeedForward, Config.Contribution, ClampedIntegral, Config.DeadbandFor,
      MayIntegrate, ErrorUsed, Shrinking;
    ContributionOfZero(cfg);
    TablePrepared(cfg, s, setpoint, measurement, dt);
    var p := Prepared(cfg, s, setpoint, measurement, dt);
    ContributionBounded(cfg, p.integral + ErrorUsed(cfg, p, setpoint - measurement) * dt);
  }

  lemma CallKeepsInv(cfg: Config, s: State, setpoint: real, measurement: real, dt: real)
    requires Sane(cfg) && Inv(cfg, s) && NonZero(s.ff) && (RateLimits(cfg) ==> 0.0 <= dt)
    ensures Inv(cfg, Compensated(cfg, s, setpoint, measurement, dt))
  {
    hide Prepared, Settled, FeedForward, Output, Learned, Config.Contribution, Cycles, Config.DeadbandFor, ErrorUsed;
    ContributionOfZero(cfg);
    if !IsZero(setpoint) {
      SettledKeeps(cfg, s, setpoint, measurement, dt);
      var p := Prepared(cfg, s, setpoint, measurement, dt);
      var ffOutput := FeedForward(cfg, p.ff, setpoint);
      var t := Settled(cfg, s, setpoint, measurement, dt);
      OutputBounded(cfg, t, ffOutput, dt);
      LearnedInRange(cfg, t, setpoint, measurement, ErrorUsed(cfg, p, setpoint - measurement), ffOutput,
                     Output(cfg, t, ffOutput, dt), cfg.DeadbandFor(setpoint), Cycles(cfg.steadySeconds, dt, 1));
    }
  }

  lemma NextKeepsInv(cfg: Config, s: State, e: Event)
    requires Sane(cfg) && Inv(cfg, s) && NonZero(s.ff) && Allowed(cfg, e)
    ensures Inv(cfg, Next(cfg, s, e)) && NonZero(Next(cfg, s, e).ff)
  {
    hide Compensated, Config.Contribution;
    ContributionOfZero(cfg);
    match e
    case Call(setpoint, measurement, dt) => CallKeepsInv(cfg, s, setpoint, measurement, dt);
    case _ =>
  }

  /** The state after a run of events from a fresh compensator: on every allowed run the output, every factor
      and the integral's contribution stay bounded, and the integral is zero during a hold. */
  function Run(cfg: Config, es: seq<Event>): (s: State)
    requires Sane(cfg)
    ensures AllAllowed(cfg, es) ==> Inv(cfg, s) && NonZero(s.ff)
    decreases |es|
  {
    if es == [] then
      ContributionOfZero(cfg);
      Initial(Fresh(cfg.step))
    else
      var prev := Run(cfg, es[..|es| - 1]);
      RunStep(cfg, es, prev);
      Next(cfg, prev, es[|es| - 1])
  }

  lemma RunStep(cfg: Config, es: seq<Event>, prev: State)
    requires Sane(cfg) && es != []
    requires AllAllowed(cfg, es[..|es| - 1]) ==> Inv(cfg, prev) && NonZero(prev.ff)
    ensures AllAllowed(cfg, es) ==> Inv(cfg, Next(cfg, prev, es[|es| - 1])) && NonZero(Next(cfg, prev, es[|es| - 1]).ff)
  {
    hide Inv, Next;
    if AllAllowed(cfg, es) {
      NextKeepsInv(cfg, prev, es[|es| - 1]);
    }
  }

  /** The object over any run. */
  method Live(c: PowerCompensator, es: seq<Event>)
    requires Sane(c.cfg) && c.Current() == Initial(Fresh(c.cfg.step))
    modifies c
    ensures c.Current() == Run(c.cfg, es)
  {
    assert c.cfg.Valid();
    hide Compensated, WithBin, WithTable, Raises, Sane, Config.Valid, Next;
    var i := 0;
    while i < |es|
      invariant i <= |es| && c.Current() == Run(c.cfg, es[..i])
    {
      RunPrefix(c.cfg, es, i);
      hide Run;
      Happen(c, es[i]);
      i := i + 1;
    }
    assert es[..i] == es;
  }

  lemma RunPrefix(cfg: Config, es: seq<Event>, i: nat)
    requires Sane(cfg) && i < |es|
    ensures Run(cfg, es[..i + 1]) == Next(cfg, Run(cfg, es[..i]), es[i])
  {
    assert es[..i + 1][..i] == es[..i];
    hide Next, Inv;
  }

  /** One event on the object. */
  method Happen(c: PowerCompensator, e: Event)
    requires c.cfg.Valid()
    modifies c
    ensures c.Current() == Next(c.cfg, old(c.Current()), e)
  {
    hide Compensated, WithBin, WithTable, Raises;
    match e {
      case Call(setpoint, measurement, dt) => var _ := c.Compensate(setpoint, measurement, dt);
      case UpdateBin(idx, ratio) => var _ := c.UpdateFFBin(idx, ratio);
      case Load(table) => c.LoadFFTable(table);
      case Reset => c.Reset();
      case ResetTable => c.ResetFFTable();
    }
  }

  lemma ClampMono(cfg: Config, x: real, y: real)
    requires x <= y
    ensures ClampedIntegral(cfg, x) <= ClampedIntegral(cfg, y)
  {}

  /** Anti-windup: a saturated feed-forward never drives the integral further into its limit, and an error within
      the deadband does not integrate at all. */
  lemma AntiWindup(cfg: Config, s: State, setpoint: real, ffOutput: real, error: real, dt: real)
    requires cfg.Valid() && 0.0 <= dt && ClampedIntegral(cfg, s.integral) == s.integral
    ensures var t := Integrated(cfg, s, ffOutput, error, cfg.DeadbandFor(setpoint), dt);
            && (SatHigh(cfg, ffOutput) && !SatLow(cfg, ffOutput) ==> t.integral <= s.integral)
            && (SatLow(cfg, ffOutput) && !SatHigh(cfg, ffOutput) ==> s.integral <= t.integral)
            && (Abs(error) < cfg.DeadbandFor(setpoint) ==> t.integral == s.integral)
  {
    assert cfg.DeadbandFor(setpoint) >= 0.0;
    hide ClampedIntegral, Config.DeadbandFor;
    MulMono(error, 0.0, dt);
    MulMono(0.0, error, dt);
    if error <= 0.0 {
      ClampMono(cfg, s.integral + error * dt, s.integral);
    } else {
      ClampMono(cfg, s.integral, s.integral + error * dt);
    }
  }

  /** On every run, two successive outputs for nonzero setpoints differ by at most the rate limit. */
  lemma RateLimited(cfg: Config, es: seq<Event>, setpoint: real, measurement: real, dt: real)
    requires Sane(cfg) && AllAllowed(cfg, es) && RateLimits(cfg) && 0.0 <= dt && !IsZero(setpoint)
    ensures var s := Run(cfg, es);
            Abs(Compensated(cfg, s, setpoint, measurement, dt).lastOutput - s.lastOutput) <= cfg.rateLimit.value * dt
  {
    hide Run, Prepared, FeedForward, Output, Learned, Cycles, Config.DeadbandFor, MayIntegrate, ClampedIntegral;
    var s := Run(cfg, es);
    TablePrepared(cfg, s, setpoint, measurement, dt);
    var p := Prepared(cfg, s, setpoint, measurement, dt);
    OutputBounded(cfg, Settled(cfg, s, setpoint, measurement, dt), FeedForward(cfg, p.ff, setpoint), dt);
  }

  /** With a negative interval the rate limiter itself drives the output out of its limits. */
  lemma NegativeIntervalEscapes(cfg: Config, s: State, ffOutput: real, dt: real)
    requires Sane(cfg) && RateLimits(cfg) && dt < 0.0
    requires s.lastOutput == cfg.outputMax && s.integral == 0.0 && ffOutput >= cfg.outputMax
    ensures Output(cfg, s, ffOutput, dt) > cfg.outputMax
  {
    assert cfg.rateLimit.value * -dt > 0.0;
  }
}
