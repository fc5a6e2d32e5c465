/** How a negative interval takes the rate limiter past the output limits, and when runs are safe from it. */
module CompensatorEscape {
  import opened Numeric
  import opened FFTable
  import opened CompensatorModel
  import opened CompensatorRuns

  lemma ReadInRange(cfg: Config, t: Table, power: real)
    requires Sane(cfg) && Full(t, BinCount(cfg.step)) && InRange(cfg, t)
    ensures cfg.ffMin <= Read(t, cfg.rated, cfg.step, power) <= cfg.ffMax
  {
    var n, pos := BinCount(cfg.step), Position(cfg.rated, cfg.step, power);
    var lo, hi := ClampInt(pos.Floor, -n, n), ClampInt(Ceil(pos), -n, n);
    assert InBins(lo, n) && InBins(hi, n);
    hide Position, InRange;
    if lo != hi {
      Between(Bin(t, lo), Bin(t, hi), pos - lo as real, cfg.ffMin, cfg.ffMax);
    }
  }

  lemma Between(x: real, y: real, f: real, lo: real, hi: real)
    requires 0.0 <= f <= 1.0 && lo <= x <= hi && lo <= y <= hi
    ensures lo <= x * (1.0 - f) + y * f <= hi
  {
    LineForm(x, y, f);
    PartOfGap(y - x, f, (y - x) * f);
  }

  lemma PartOfGap(d: real, f: real, part: real)
    requires 0.0 <= f <= 1.0 && part == d * f
    ensures if d >= 0.0 then 0.0 <= part <= d else d <= part <= 0.0
  {
    MulMono(0.0, f, d);
    MulMono(f, 1.0, d);
    MulMono(0.0, f, -d);
    MulMono(f, 1.0, -d);
  }

  /** A setpoint that saturates whatever the table holds. */
  function Demand(cfg: Config): real
    requires cfg.Valid()
  {
    (cfg.outputMax + 1.0) / cfg.ffMin
  }

  lemma DemandSaturates(cfg: Config, f: real)
    requires Sane(cfg) && cfg.ffMin <= f
    ensures Demand(cfg) >= 1.0 && f * Demand(cfg) >= cfg.outputMax + 1.0
  {
    var d := Demand(cfg);
    assert d * cfg.ffMin == cfg.outputMax + 1.0;
    DivMono(cfg.ffMin, cfg.outputMax + 1.0, cfg.ffMin);
    MulMono(cfg.ffMin, f, d);
  }

  /** A compensator without error or integral. */
  ghost predicate Calm(cfg: Config, s: State)
    requires cfg.Valid()
  {
    Full(s.ff, BinCount(cfg.step)) && InRange(cfg, s.ff) && s.integral == 0.0 && s.filteredError == 0.0
  }

  lemma DemandFeeds(cfg: Config, ff: Table)
    requires Sane(cfg) && Full(ff, BinCount(cfg.step)) && InRange(cfg, ff)
    ensures FeedForward(cfg, ff, Demand(cfg)) > cfg.outputMax
  {
    var f := Read(ff, cfg.rated, cfg.step, Demand(cfg));
    ReadInRange(cfg, ff, Demand(cfg));
    DemandSaturates(cfg, f);
    hide Read, Demand, InRange, Full;
  }

  lemma CalmIntegrates(cfg: Config, p: State, ffOutput: real, setpoint: real, dt: real)
    requires Sane(cfg) && Calm(cfg, p) && ffOutput > cfg.outputMax
    ensures var t := Integrated(cfg, p, ffOutput, 0.0, cfg.DeadbandFor(setpoint), dt);
            Calm(cfg, t) && t.lastOutput == p.lastOutput && t.ff == p.ff
  {
    assert cfg.DeadbandFor(setpoint) >= 0.0;
    hide Config.DeadbandFor, InRange, Shrinking, Full;
  }

  lemma CalmSettles(cfg: Config, s: State, dt: real)
    requires Sane(cfg) && Calm(cfg, s)
    ensures var p, t := Prepared(cfg, s, Demand(cfg), Demand(cfg), dt), Settled(cfg, s, Demand(cfg), Demand(cfg), dt);
            && Calm(cfg, t) && t.lastOutput == s.lastOutput && t.ff == p.ff
            && FeedForward(cfg, p.ff, Demand(cfg)) > cfg.outputMax
  {
    var d := Demand(cfg);
    var p := Prepared(cfg, s, d, d, dt);
    CalmPrepared(cfg, s, d, dt);
    DemandFeeds(cfg, p.ff);
    hide Prepared, Demand, FeedForward, Config.DeadbandFor, InRange, Integrated, Full, ErrorUsed;
    CalmIntegrates(cfg, p, FeedForward(cfg, p.ff, d), d, dt);
  }

  lemma CalmPrepared(cfg: Config, s: State, setpoint: real, dt: real)
    requires Sane(cfg) && Calm(cfg, s)
    ensures var p := Prepared(cfg, s, setpoint, setpoint, dt);
            Calm(cfg, p) && p.lastOutput == s.lastOutput && ErrorUsed(cfg, p, setpoint - setpoint) == 0.0
  {
    hide BinIndex, Cycles;
    BinInTable(cfg, s.lastSetpoint);
    BinInTable(cfg, setpoint);
  }

  lemma CalmStep(cfg: Config, s: State, dt: real)
    requires Sane(cfg) && RateLimits(cfg) && dt < 0.0 && Calm(cfg, s) && s.lastOutput <= cfg.outputMax
    ensures var t := Compensated(cfg, s, Demand(cfg), Demand(cfg), dt);
            Calm(cfg, t) && t.lastOutput == s.lastOutput + Stride(cfg, dt)
  {
    var d := Demand(cfg);
    CalmSettles(cfg, s, dt);
    DemandSaturates(cfg, cfg.ffMin);
    var p, t := Prepared(cfg, s, d, d, dt), Settled(cfg, s, d, d, dt);
    var ffOutput := FeedForward(cfg, p.ff, d);
    assert NonZero(s.ff) && NonZero(t.ff);
    LearnedInRange(cfg, t, d, d, ErrorUsed(cfg, p, d - d), ffOutput, Output(cfg, t, ffOutput, dt),
                   cfg.DeadbandFor(d), Cycles(cfg.steadySeconds, dt, 1));
    StepsPast(cfg, t, ffOutput, dt);
    LearnedKeepsFilter(cfg, t, d, d, ErrorUsed(cfg, p, d - d), ffOutput, Output(cfg, t, ffOutput, dt),
                       cfg.DeadbandFor(d), Cycles(cfg.steadySeconds, dt, 1));
    hide Prepared, Settled, FeedForward, Output, Learned, Demand, Config.DeadbandFor, Cycles, InRange, Stride;
  }

  lemma LearnedKeepsFilter(cfg: Config, s: State, setpoint: real, measurement: real, error: real, ffOutput: real,
                           output: real, deadband: real, steadyCycles: nat)
    requires cfg.Valid()
    ensures Learned(cfg, s, setpoint, measurement, error, ffOutput, output, deadband, steadyCycles).filteredError
         == s.filteredError
  {}

  lemma StepsPast(cfg: Config, s: State, ffOutput: real, dt: real)
    requires Sane(cfg) && RateLimits(cfg) && dt < 0.0 && s.integral == 0.0
    requires s.lastOutput <= cfg.outputMax <= ffOutput
    ensures Output(cfg, s, ffOutput, dt) == s.lastOutput + Stride(cfg, dt)
  {
    var m := cfg.rateLimit.value * dt;
    assert cfg.rateLimit.value * -dt > 0.0 && m == -(cfg.rateLimit.value * -dt);
  }

  lemma RunMore(cfg: Config, es: seq<Event>, e: Event)
    requires Sane(cfg)
    ensures Run(cfg, es + [e]) == Next(cfg, Run(cfg, es), e)
  {
    assert (es + [e])[..|es|] == es;
  }

  ghost predicate Repeats(es: seq<Event>, e: Event, n: nat) {
    |es| == n && forall i :: 0 <= i < n ==> es[i] == e
  }

  function OnTarget(cfg: Config, dt: real): Event
    requires cfg.Valid()
  {
    Call(Demand(cfg), Demand(cfg), dt)
  }

  function Stride(cfg: Config, dt: real): real
    requires RateLimits(cfg)
  {
    cfg.rateLimit.value * -dt
  }

  lemma FreshIsCalm(cfg: Config)
    requires Sane(cfg)
    ensures Calm(cfg, Run(cfg, [])) && Run(cfg, []).lastOutput == 0.0
  {}

  /** With a rate limit and any negative interval, enough equal calls on target take a fresh compensator past its
      output limit. */
  lemma {:induction false} EscapingRun(cfg: Config, dt: real, k: nat) returns (es: seq<Event>)
    requires Sane(cfg) && RateLimits(cfg) && dt < 0.0 && (k > 0 ==> Times(k - 1, Stride(cfg, dt)) <= cfg.outputMax)
    ensures Repeats(es, OnTarget(cfg, dt), k)
    ensures Calm(cfg, Run(cfg, es)) && Run(cfg, es).lastOutput == Times(k, Stride(cfg, dt))
  {
    var step := Stride(cfg, dt);
    assert step > 0.0;
    if k == 0 {
      es := [];
      FreshIsCalm(cfg);
      TimesNext(0, step);
    } else {
      TimesNext(k - 1, step);
      hide Times, Calm, Run, Sane, Stride, Compensated, Demand;
      if k > 1 {
        TimesGrow(k - 2, step);
      }
      es := EscapingRun(cfg, dt, k - 1);
      CalmStep(cfg, Run(cfg, es), dt);
      RunMore(cfg, es, OnTarget(cfg, dt));
      es := es + [OnTarget(cfg, dt)];
    }
  }

  lemma TimesGrow(k: nat, x: real)
    requires x > 0.0
    ensures Times(k, x) <= Times(k + 1, x)
  {
    TimesNext(k, x);
  }

  lemma PastEnough(x: real, limit: real) returns (k: nat)
    requires x > 0.0 && limit >= 0.0
    ensures Times(k, x) <= limit < Times(k + 1, x)
  {
    k := (limit / x).Floor;
    DivMono(0.0, limit, x);
    MulMono(k as real, limit / x, x);
    assert limit / x * x == limit;
    MulStrict(limit / x, (k + 1) as real, x);
  }

  ghost predicate CallsWith(es: seq<Event>, dt: real) {
    forall i :: 0 <= i < |es| ==> es[i].Call? && es[i].dt == dt
  }

  ghost predicate RunsBounded(cfg: Config, dt: real)
    requires Sane(cfg)
  {
    forall es :: CallsWith(es, dt) ==> cfg.outputMin <= Run(cfg, es).lastOutput <= cfg.outputMax
  }

  /** Runs of calls with one interval stay within the output limits exactly when it is not negative, or no rate
      limit is set. */
  lemma RunsBoundedIff(cfg: Config, dt: real)
    requires Sane(cfg)
    ensures RunsBounded(cfg, dt) <==> !RateLimits(cfg) || 0.0 <= dt
  {
    hide Run, Demand, Inv;
    if !RateLimits(cfg) || 0.0 <= dt {
      forall es | CallsWith(es, dt) ensures cfg.outputMin <= Run(cfg, es).lastOutput <= cfg.outputMax {
        assert AllAllowed(cfg, es);
        InvOutput(cfg, Run(cfg, es));
      }
    } else {
      assert Stride(cfg, dt) > 0.0;
      var k := PastEnough(Stride(cfg, dt), cfg.outputMax);
      var es := EscapingRun(cfg, dt, k + 1);
      assert CallsWith(es, dt);
    }
  }

  lemma InvOutput(cfg: Config, s: State)
    requires cfg.Valid() && Inv(cfg, s)
    ensures cfg.outputMin <= s.lastOutput <= cfg.outputMax
  {}
}
