/** Calibration in closed loop: the plant delivers its gain times the power the strategy last commanded. */
module CalibrationLoop {
  import opened Numeric
  import opened FFTable
  import opened CompensatorModel
  import opened CompensatorBumpless
  import opened CalibrationModel
  import opened CalibrationLaws
  import opened CalibrationEffect

  // ---- What a call commands ----

  /** p is the bin's percentage of rated power. */
  ghost predicate Commands(cfg: CalConfig, rated: real, bin: int, p: real) {
    100.0 * p == rated * (bin * cfg.stepPct) as real
  }

  lemma SetpointCommands(cfg: CalConfig, rated: real, bin: int, p: real)
    ensures Commands(cfg, rated, bin, p) <==> p == Setpoint(cfg, rated, bin)
  {
    CastMul(bin, cfg.stepPct);
    var b, k := bin as real, cfg.stepPct as real;
    assert rated * b * k == rated * (b * k);
  }

  /** A call while stepping commands the power of the bin it begins with, even if it ends that bin; the finishing call,
      and every later one, commands zero. */
  lemma CallCommands(cfg: CalConfig, rated: real, s: Cal, m: Option<real>)
    requires Consistent(cfg, s) && rated > 0.0 && s.phase != Idle && (s.phase == Stepping ==> s.index < |s.bins|)
    ensures var reply := Answer(cfg, s, rated, m);
      && reply.Power?
      && (if Executed(cfg, s, rated, m).phase == Done then reply.p == 0.0
          else Commands(cfg, rated, s.bins[s.index], reply.p))
  {
    if s.phase == Stepping {
      SetpointCommands(cfg, rated, s.bins[s.index], Setpoint(cfg, rated, s.bins[s.index]));
    }
    hide Executed, Setpoint, Commands;
    DoneKept(cfg, rated, s, m);
  }

  lemma DoneKept(cfg: CalConfig, rated: real, s: Cal, m: Option<real>)
    requires Consistent(cfg, s)
    ensures s.phase == Done ==> Executed(cfg, s, rated, m) == s
    ensures s.phase == Stepping ==> Executed(cfg, s, rated, m).phase != Idle
  {
    hide Setpoint, IsSteady, Recorded;
  }

  // ---- Which bins, in which order ----

  function Percent(cfg: CalConfig, bin: int): int {
    bin * cfg.stepPct
  }

  /** Discharge bins up to the maximum, the zero bin unless it is skipped, and charge bins down to the first at or below
      the minimum, none beyond 100 percent. */
  ghost predicate Visits(cfg: CalConfig, bin: int) {
    if bin >= 0 then
      Percent(cfg, bin) <= cfg.maxPct && Percent(cfg, bin) <= 100 && (bin == 0 ==> !cfg.skipZero)
    else
      Percent(cfg, bin) >= -100 && Percent(cfg, bin + 1) > cfg.minPct
  }

  /** Discharge bins come first, and each side goes outward from zero. */
  ghost predicate Outward(bin: int, next: int) {
    if next >= 0 then 0 <= bin < next else bin >= 0 || next < bin
  }

  lemma QuotientAtLeast(x: int, step: int, bin: int)
    requires 0 < step
    ensures bin <= x / step <==> bin * step <= x
  {
    MulMonoInt(bin, x / step, step);
    MulMonoInt(x / step + 1, bin, step);
  }

  lemma VisitsIff(cfg: CalConfig, bin: int)
    requires cfg.Valid()
    ensures Visits(cfg, bin) <==> (First(cfg) <= bin <= MaxBin(cfg)) || (MinBin(cfg) <= bin <= -1)
  {
    QuotientAtLeast(cfg.maxPct, cfg.stepPct, bin);
    QuotientAtLeast(100, cfg.stepPct, bin);
    QuotientAtLeast(100, cfg.stepPct, -bin);
    QuotientAtLeast(cfg.minPct, cfg.stepPct, bin + 1);
  }

  /** The bins a calibration visits, and their order. */
  lemma SequenceMeans(cfg: CalConfig)
    requires cfg.Valid()
    ensures var bins := BinSequence(cfg);
      && (forall b :: b in bins <==> Visits(cfg, b))
      && (forall j, k :: 0 <= j < k < |bins| ==> Outward(bins[j], bins[k]))
  {
    BinsVisited(cfg);
    UpElements(First(cfg), MaxBin(cfg));
    DownElements(-1, MinBin(cfg));
    hide MaxBin, MinBin, Up, Down, Visits;
    forall b ensures b in BinSequence(cfg) <==> Visits(cfg, b) {
      VisitsIff(cfg, b);
    }
  }

  // ---- The loop ----

  /** Call k measures nothing, or beta times what call k - 1 commanded. The first may measure anything. */
  ghost predicate Follows(cfg: CalConfig, rated: real, beta: real, ms: seq<Option<real>>, k: nat)
    requires cfg.Valid() && 1 <= k < |ms|
  {
    var reply := Answer(cfg, Run(cfg, rated, ms[..k - 1]), rated, ms[k - 1]);
    ms[k].Some? && reply.Power? ==> ms[k].value == Fed(beta, reply.p)
  }

  ghost predicate ClosedLoop(cfg: CalConfig, rated: real, beta: real, ms: seq<Option<real>>)
    requires cfg.Valid()
  {
    forall k :: 1 <= k < |ms| ==> Follows(cfg, rated, beta, ms, k)
  }

  /** With a settle cycle, a call that judges comes after one that commanded the same bin. */
  lemma JudgedAfterCommanded(cfg: CalConfig, rated: real, s: Cal, m: Option<real>)
    requires Consistent(cfg, s) && rated > 0.0 && cfg.settleWait >= 1
    ensures var t := Executed(cfg, s, rated, m);
      Live(t, rated) && t.settle <= 0 ==>
        Live(s, rated) && Answer(cfg, s, rated, m) == Power(Setpoint(cfg, rated, t.bins[t.index]))
  {
    hide Setpoint, IsSteady, Recorded;
  }

  /** So the readings it judges are those of a plant with that gain. */
  lemma LoopIsGain(cfg: CalConfig, rated: real, beta: real, ms: seq<Option<real>>)
    requires cfg.Valid() && rated > 0.0 && cfg.settleWait >= 1 && ClosedLoop(cfg, rated, beta, ms)
    ensures AllGain(cfg, rated, beta, ms)
  {
    hide Executed, Setpoint, Fed, Answer;
    forall k | 0 <= k < |ms| ensures GainCall(cfg, Run(cfg, rated, ms[..k]), rated, beta, ms[k]) {
      if k > 0 {
        assert ms[..k][..k - 1] == ms[..k - 1];
        assert Follows(cfg, rated, beta, ms, k);
        JudgedAfterCommanded(cfg, rated, Run(cfg, rated, ms[..k - 1]), ms[k - 1]);
      }
    }
  }

  /** Without one, the call after a bin has ended judges the power of the old bin by the setpoint of the new one. */
  lemma StaleReading(cfg: CalConfig, rated: real, beta: real, ms: seq<Option<real>>, k: nat)
    requires cfg.Valid() && rated > 0.0 && cfg.settleWait <= 0 && ClosedLoop(cfg, rated, beta, ms)
    requires 1 <= k < |ms| && ms[k].Some?
    requires var s, t := Run(cfg, rated, ms[..k - 1]), Run(cfg, rated, ms[..k]);
      Live(s, rated) && Live(t, rated) && t.index == s.index + 1
    ensures var s, t := Run(cfg, rated, ms[..k - 1]), Run(cfg, rated, ms[..k]);
      t.settle <= 0 && ms[k].value == Fed(beta, Setpoint(cfg, rated, s.bins[s.index]))
      && t.bins == s.bins && t.index == s.index + 1
  {
    assert ms[..k][..k - 1] == ms[..k - 1];
    assert Follows(cfg, rated, beta, ms, k);
    hide Setpoint, IsSteady, Recorded, Fed;
  }

  /** Closed loops show the judged calls their own bin's power exactly when there is a settle cycle. */
  lemma SettleIff(cfg: CalConfig, rated: real, beta: real)
    requires Resolvable(cfg, rated) && BinSequence(cfg) != []
    ensures (forall ms :: ClosedLoop(cfg, rated, beta, ms) ==> AllGain(cfg, rated, beta, ms)) <==> cfg.settleWait >= 1
  {
    hide BinSequence, Setpoint, Fed, Executed, Answer;
    if cfg.settleWait >= 1 {
      forall ms | ClosedLoop(cfg, rated, beta, ms) ensures AllGain(cfg, rated, beta, ms) {
        LoopIsGain(cfg, rated, beta, ms);
      }
    } else {
      var x := Fed(beta, Setpoint(cfg, rated, BinSequence(cfg)[0]));
      var ms := [Some(x + 1.0)];
      assert ms[..0] == [];
      assert ClosedLoop(cfg, rated, beta, ms);
      assert !GainCall(cfg, Run(cfg, rated, ms[..0]), rated, beta, ms[0]);
    }
  }

  // ---- What the loop comes to ----

  /** A gain within the threshold of 1: the loop finishes after exactly bins * (settle + steady) measured calls. */
  lemma LoopFinishes(cfg: CalConfig, rated: real, beta: real, ms: seq<Option<real>>)
    requires Resolvable(cfg, rated) && cfg.settleWait >= 1 && ClosedLoop(cfg, rated, beta, ms)
    requires BinSequence(cfg) != [] && Abs(1.0 - beta) < cfg.threshold
    ensures Run(cfg, rated, ms).phase == Done <==> Measured(ms) >= |BinSequence(cfg)| * PerBin(cfg)
  {
    LoopIsGain(cfg, rated, beta, ms);
    hide Run, BinSequence, AllGain, ClosedLoop, Measured, PerBin;
    GainFinishes(cfg, rated, beta, ms);
  }

  /** A finished loop makes the compensator read the inverse of the gain at every visited bin, within all limits. */
  lemma LoopCalibrates(cfg: CalConfig, rated: real, beta: real, ms: seq<Option<real>>, comp: Config, table: Table,
                       b: int)
    requires Readable(cfg, rated, beta) && cfg.settleWait >= 1 && ClosedLoop(cfg, rated, beta, ms)
    requires Run(cfg, rated, ms).phase == Done && Full(table, BinCount(cfg.stepPct)) && b in BinSequence(cfg)
    ensures Read(Written(comp, table, Run(cfg, rated, ms).results), rated, cfg.stepPct, Setpoint(cfg, rated, b))
         == comp.Bound(GainFactor(beta, b))
  {
    LoopIsGain(cfg, rated, beta, ms);
    hide Run, BinSequence, AllGain, ClosedLoop, Read, Written, GainFactor, Setpoint, Full;
    CalibratedRead(cfg, rated, beta, ms, comp, table, b);
  }

  /** And the plant then delivers the setpoint of a visited bin, or beta squared of it when charging. */
  lemma LoopDelivers(cfg: CalConfig, rated: real, beta: real, ms: seq<Option<real>>, comp: Config, table: Table,
                     b: int)
    requires Readable(cfg, rated, beta) && cfg.settleWait >= 1 && ClosedLoop(cfg, rated, beta, ms)
    requires Run(cfg, rated, ms).phase == Done && Full(table, BinCount(cfg.stepPct)) && b in BinSequence(cfg)
    requires comp.Valid() && comp.rated == rated && comp.step == cfg.stepPct
    requires 0.8 <= 1.0 / beta <= 1.5 && comp.ffMin <= 1.0 / beta <= comp.ffMax
    ensures var w, s := Written(comp, table, Run(cfg, rated, ms).results), Setpoint(cfg, rated, b);
            && (Fed(beta, FeedForward(comp, w, s)) == s <==> b >= 0 || beta == 1.0)
            && (b < 0 ==> Fed(beta, FeedForward(comp, w, s)) == Fed(beta, Fed(beta, s)))
  {
    LoopIsGain(cfg, rated, beta, ms);
    hide Run, BinSequence, AllGain, ClosedLoop, FeedForward, Written, Setpoint, Full, Fed;
    CalibratedPlant(cfg, rated, beta, ms, comp, table, b);
  }
}
