/** What a finished calibration makes a plant of constant gain deliver. */
module CalibrationEffect {
  import opened Numeric
  import opened FFTable
  import opened CompensatorModel
  import opened CompensatorBumpless
  import opened CalibrationModel
  import opened CalibrationLaws

  // ---- What is recorded ----

  /** A call that judges its measurement is shown beta times the bin's setpoint. */
  predicate GainCall(cfg: CalConfig, s: Cal, rated: real, beta: real, m: Option<real>) {
    Live(s, rated) && m.Some? && s.settle <= 0 ==> m.value == Fed(beta, Setpoint(cfg, rated, s.bins[s.index]))
  }

  ghost predicate AllGain(cfg: CalConfig, rated: real, beta: real, ms: seq<Option<real>>)
    requires cfg.Valid()
  {
    forall k :: 0 <= k < |ms| ==> GainCall(cfg, Run(cfg, rated, ms[..k]), rated, beta, ms[k])
  }

  /** Even the smallest bin's reading is large enough to divide by. */
  predicate Readable(cfg: CalConfig, rated: real, beta: real) {
    Resolvable(cfg, rated) && 0.0 < beta && 0.000001 < Fed(beta, rated * cfg.stepPct as real / 100.0)
  }

  function GainFactor(beta: real, bin: int): real
    requires beta > 0.0
  {
    if bin == 0 then 1.0 else Clamp(1.0 / beta, 0.8, 1.5)
  }

  lemma FactorRecorded(cfg: CalConfig, rated: real, beta: real, bin: int)
    requires Readable(cfg, rated, beta)
    ensures var s := Setpoint(cfg, rated, bin); Recorded(s, Fed(beta, s)) == GainFactor(beta, bin)
  {
    var unit := rated * cfg.stepPct as real / 100.0;
    var s := Setpoint(cfg, rated, bin);
    SetpointForm(cfg, rated, bin);
    if bin != 0 {
      assert Fed(beta, s) == bin as real * Fed(beta, unit);
      AbsTimes(bin as real, Fed(beta, unit));
      MulMono(1.0, Abs(bin as real), Fed(beta, unit));
      DivOf(s, Fed(beta, s), 1.0 / beta);
    }
  }

  lemma SetpointForm(cfg: CalConfig, rated: real, bin: int)
    ensures Setpoint(cfg, rated, bin) == bin as real * (rated * cfg.stepPct as real / 100.0)
  {}

  /** So far the sum is that of equal readings, and every recorded factor is the plant's. */
  ghost predicate OnGain(cfg: CalConfig, rated: real, beta: real, s: Cal)
    requires beta > 0.0
  {
    && (s.index < |s.bins| ==> s.sum == Times(s.count, Fed(beta, Setpoint(cfg, rated, s.bins[s.index]))))
    && (forall b :: b in s.results ==> s.results[b] == GainFactor(beta, b))
  }

  lemma TimesAverage(n: nat, x: real)
    requires 0 < n
    ensures Times(n, x) / n as real == x
  {
    DivOf(Times(n, x), n as real, x);
  }

  lemma CallOnGain(cfg: CalConfig, rated: real, beta: real, s: Cal, m: Option<real>)
    requires Readable(cfg, rated, beta) && Consistent(cfg, s)
    requires OnGain(cfg, rated, beta, s) && GainCall(cfg, s, rated, beta, m)
    ensures OnGain(cfg, rated, beta, Executed(cfg, s, rated, m))
  {
    hide Setpoint, IsSteady, Recorded, Fed, Times, GainFactor;
    if Live(s, rated) && m.Some? && s.settle <= 0 {
      var x := Fed(beta, Setpoint(cfg, rated, s.bins[s.index]));
      TimesNext(s.count, x);
      TimesAverage(s.count + 1, x);
      FactorRecorded(cfg, rated, beta, s.bins[s.index]);
      forall bin: int ensures Times(0, Fed(beta, Setpoint(cfg, rated, bin))) == 0.0 {
        TimesNext(0, Fed(beta, Setpoint(cfg, rated, bin)));
      }
    }
  }

  lemma {:induction false} RunOnGain(cfg: CalConfig, rated: real, beta: real, ms: seq<Option<real>>)
    requires Readable(cfg, rated, beta) && AllGain(cfg, rated, beta, ms)
    ensures OnGain(cfg, rated, beta, Run(cfg, rated, ms))
    decreases |ms|
  {
    hide Executed, GainCall;
    if ms == [] {
      hide Fed, Setpoint;
    } else {
      var init := ms[..|ms| - 1];
      assert forall k :: 0 <= k < |init| ==> init[..k] == ms[..k];
      RunOnGain(cfg, rated, beta, init);
      hide OnGain;
      CallOnGain(cfg, rated, beta, Run(cfg, rated, init), ms[|ms| - 1]);
    }
  }

  lemma ResultOf(cfg: CalConfig, rated: real, beta: real, ms: seq<Option<real>>, b: int)
    requires Readable(cfg, rated, beta) && AllGain(cfg, rated, beta, ms) && Run(cfg, rated, ms).phase == Done
    requires b in BinSequence(cfg)
    ensures var results := Run(cfg, rated, ms).results; b in results && results[b] == GainFactor(beta, b)
  {
    RunRecords(cfg, rated, ms);
    RunOnGain(cfg, rated, beta, ms);
    hide Run, BinSequence, Plausible, SumClose, AllGain, GainFactor, Fed, Setpoint;
    var s := Run(cfg, rated, ms);
    var k :| 0 <= k < |s.bins| && s.bins[k] == b;
  }

  // ---- Whether it finishes ----

  lemma GainErrs(cfg: CalConfig, beta: real, s: real)
    requires Abs(s) > 0.000001 || s == 0.0
    requires Abs(1.0 - beta) < cfg.threshold
    ensures IsSteady(cfg, s, Fed(beta, s))
  {
    if s == 0.0 {
      assert Fed(beta, s) == 0.0;
    } else {
      DivOf(s - Fed(beta, s), s, 1.0 - beta);
    }
  }

  /** A gain within the threshold of 1 is steady at every bin, so that such a run finishes after exactly
      bins * (settle + steady) measured calls. */
  lemma GainFinishes(cfg: CalConfig, rated: real, beta: real, ms: seq<Option<real>>)
    requires Resolvable(cfg, rated) && AllGain(cfg, rated, beta, ms) && BinSequence(cfg) != []
    requires Abs(1.0 - beta) < cfg.threshold
    ensures Run(cfg, rated, ms).phase == Done <==> Measured(ms) >= |BinSequence(cfg)| * PerBin(cfg)
  {
    forall k | 0 <= k < |ms| ensures SteadyCall(cfg, Run(cfg, rated, ms[..k]), rated, ms[k]) {
      var s := Run(cfg, rated, ms[..k]);
      hide Run, IsSteady, Fed, Setpoint;
      if Live(s, rated) && ms[k].Some? && s.settle <= 0 {
        SetpointKnown(cfg, rated, s.bins[s.index]);
        GainErrs(cfg, beta, Setpoint(cfg, rated, s.bins[s.index]));
      }
    }
    Duration(cfg, rated, ms);
  }

  lemma SetpointKnown(cfg: CalConfig, rated: real, bin: int)
    requires Resolvable(cfg, rated)
    ensures Abs(Setpoint(cfg, rated, bin)) > 0.000001 || Setpoint(cfg, rated, bin) == 0.0
  {
    if bin != 0 { SetpointLarge(cfg, rated, bin); }
  }

  // ---- What it does to the plant ----

  lemma ReadOwnBin(cfg: CalConfig, rated: real, t: Table, b: int)
    requires cfg.Valid() && rated > 0.0 && InBins(b, BinCount(cfg.stepPct))
    ensures Read(t, rated, cfg.stepPct, Setpoint(cfg, rated, b)) == Bin(t, b)
  {
    PositionOf(cfg, rated, b);
    assert (b as real).Floor == b && Ceil(b as real) == b;
    hide Position, Setpoint, Bin;
  }

  lemma PositionOf(cfg: CalConfig, rated: real, b: int)
    requires cfg.Valid() && rated > 0.0
    ensures Position(rated, cfg.stepPct, Setpoint(cfg, rated, b)) == b as real
  {
    var k, step := b as real, cfg.stepPct as real;
    var share := k * step / 100.0;
    assert Setpoint(cfg, rated, b) == rated * share;
    DivOf(rated * share, rated, share);
    DivOf(share * 100.0, step, k);
  }

  /** A read at a calibrated bin's setpoint finds the inverse of the gain, within all limits. */
  lemma CalibratedRead(cfg: CalConfig, rated: real, beta: real, ms: seq<Option<real>>, comp: Config, table: Table,
                       b: int)
    requires Readable(cfg, rated, beta) && AllGain(cfg, rated, beta, ms) && Run(cfg, rated, ms).phase == Done
    requires Full(table, BinCount(cfg.stepPct)) && b in BinSequence(cfg)
    ensures Read(Written(comp, table, Run(cfg, rated, ms).results), rated, cfg.stepPct, Setpoint(cfg, rated, b))
         == comp.Bound(GainFactor(beta, b))
  {
    ResultOf(cfg, rated, beta, ms, b);
    BinsVisited(cfg);
    hide Run, BinSequence, AllGain, Config.Bound;
    var w := Written(comp, table, Run(cfg, rated, ms).results);
    assert w[b] == comp.Bound(GainFactor(beta, b));
    hide Written;
    ReadOwnBin(cfg, rated, w, b);
  }

  /** With the inverse gain within all limits, a calibrated plant delivers the setpoint of every discharge bin; at a
      charge bin it delivers beta squared of it, which is the setpoint only if there was nothing to calibrate. */
  lemma CalibratedPlant(cfg: CalConfig, rated: real, beta: real, ms: seq<Option<real>>, comp: Config, table: Table,
                        b: int)
    requires Readable(cfg, rated, beta) && AllGain(cfg, rated, beta, ms) && Run(cfg, rated, ms).phase == Done
    requires comp.Valid() && comp.rated == rated && comp.step == cfg.stepPct && Full(table, BinCount(cfg.stepPct))
    requires b in BinSequence(cfg)
    requires 0.8 <= 1.0 / beta <= 1.5 && comp.ffMin <= 1.0 / beta <= comp.ffMax
    ensures var w, s := Written(comp, table, Run(cfg, rated, ms).results), Setpoint(cfg, rated, b);
            && (Fed(beta, FeedForward(comp, w, s)) == s <==> b >= 0 || beta == 1.0)
            && (b < 0 ==> Fed(beta, FeedForward(comp, w, s)) == Fed(beta, Fed(beta, s)))
  {
    CalibratedRead(cfg, rated, beta, ms, comp, table, b);
    SetpointSign(cfg, rated, b);
    hide Run, Written, Setpoint, AllGain, BinSequence, Full;
    Delivered(comp, Written(comp, table, Run(cfg, rated, ms).results), beta, Setpoint(cfg, rated, b));
  }

  lemma SetpointSign(cfg: CalConfig, rated: real, bin: int)
    requires Resolvable(cfg, rated)
    ensures Setpoint(cfg, rated, bin) >= 0.0 <==> bin >= 0
    ensures Setpoint(cfg, rated, bin) == 0.0 <==> bin == 0
  {
    var unit := rated * cfg.stepPct as real / 100.0;
    SetpointForm(cfg, rated, bin);
    MulMono(bin as real, -1.0, unit);
    MulMono(1.0, bin as real, unit);
  }

  /** Feed-forward through the inverse of the gain. */
  lemma Delivered(comp: Config, w: Table, beta: real, s: real)
    requires comp.Valid() && beta > 0.0 && 0.8 <= 1.0 / beta
    requires s != 0.0 ==> Read(w, comp.rated, comp.step, s) == 1.0 / beta
    ensures Fed(beta, FeedForward(comp, w, s)) == s <==> s >= 0.0 || beta == 1.0
    ensures s < 0.0 ==> Fed(beta, FeedForward(comp, w, s)) == Fed(beta, Fed(beta, s))
  {
    hide Read;
    var f := 1.0 / beta;
    assert f * beta == 1.0;
    if s > 0.0 {
      assert Fed(beta, f * s) == s;
    } else if s < 0.0 {
      DivOf(s, f, beta * s);
      assert Fed(beta, beta * s) - s == (beta - 1.0) * (beta + 1.0) * s;
    }
  }
}
