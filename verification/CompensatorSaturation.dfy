/** Saturated calls of the compensator: however they begin, the bin of the setpoint settles. */
module CompensatorSaturation {
  import opened Numeric
  import opened FFTable
  import opened CompensatorModel
  import opened CompensatorRuns
  import opened CompensatorEscape
  import opened CompensatorHold
  import opened CompensatorLearning

  /** The feed-forward alone reaches this limit. */
  predicate SaturatedAt(cfg: Config, ffOutput: real, satHigh: bool) {
    if satHigh then SatHigh(cfg, ffOutput) else SatLow(cfg, ffOutput) && !SatHigh(cfg, ffOutput)
  }

  function Called(cfg: Config, s: State, r: Reading): State
    requires cfg.Valid()
  {
    Compensated(cfg, s, r.setpoint, r.measurement, r.dt)
  }

  /** A saturated call at this setpoint, while the meter shows beta times the output. */
  predicate Drives(cfg: Config, s: State, r: Reading, setpoint: real, beta: real, satHigh: bool)
    requires cfg.Valid()
  {
    && r.setpoint == setpoint && SaturatedAt(cfg, FeedForward(cfg, s.ff, setpoint), satHigh)
    && r.measurement == beta * Called(cfg, s, r).lastOutput
  }

  /** A setpoint that saturates through every factor within the limits. */
  predicate BeyondLimits(cfg: Config, setpoint: real, satHigh: bool)
    requires cfg.Valid()
  {
    if satHigh then setpoint > 0.0 && cfg.ffMin * setpoint >= cfg.outputMax
    else setpoint < 0.0 && 0.000001 < cfg.ffMin <= cfg.ffMax && setpoint / cfg.ffMax <= cfg.outputMin < cfg.outputMax
  }

  lemma AlwaysSaturated(cfg: Config, ff: Table, setpoint: real, satHigh: bool)
    requires Sane(cfg) && Full(ff, BinCount(cfg.step)) && InRange(cfg, ff) && BeyondLimits(cfg, setpoint, satHigh)
    ensures SaturatedAt(cfg, FeedForward(cfg, ff, setpoint), satHigh)
  {
    ReadInRange(cfg, ff, setpoint);
    hide Read, InRange, Full;
    FedBeyond(cfg, ff, setpoint, Read(ff, cfg.rated, cfg.step, setpoint), satHigh);
  }

  lemma FedBeyond(cfg: Config, ff: Table, setpoint: real, f: real, satHigh: bool)
    requires cfg.Valid() && f == Read(ff, cfg.rated, cfg.step, setpoint) && cfg.ffMin <= f <= cfg.ffMax
    requires BeyondLimits(cfg, setpoint, satHigh)
    ensures SaturatedAt(cfg, FeedForward(cfg, ff, setpoint), satHigh)
  {
    hide Read;
    if satHigh {
      MulMono(cfg.ffMin, f, setpoint);
    } else {
      ShareGrows(setpoint, f, cfg.ffMax);
    }
  }

  lemma ShareGrows(x: real, f: real, g: real)
    requires x < 0.0 < f <= g
    ensures x / f <= x / g
  {
    var p, q := x / f, x / g;
    assert p * f == x && q * g == x;
    if q < p {
      MulMono(f, g, -q);
      MulStrict(q, p, f);
    }
  }

  lemma SettledSame(cfg: Config, s: State, r: Reading)
    requires cfg.Valid() && s.lastSetpoint == r.setpoint
    ensures Prepared(cfg, s, r.setpoint, r.measurement, r.dt).ff == s.ff
    ensures var t := Settled(cfg, s, r.setpoint, r.measurement, r.dt);
            t.ff == s.ff && t.satCount == s.satCount && t.lastSetpoint == r.setpoint
  {
    hide Blend, Cycles, BinIndex, FeedForward, MayIntegrate, ClampedIntegral, ErrorUsed, Config.DeadbandFor, Shrinking;
  }

  lemma LearnsSaturated(cfg: Config, s: State, r: Reading, error: real, ffOutput: real, output: real, deadband: real,
                        cycles: nat, satHigh: bool)
    requires cfg.Valid() && SaturatedAt(cfg, ffOutput, satHigh)
    ensures !LearningRaises(cfg, s, r.setpoint, error, ffOutput, deadband, cycles)
    ensures var t := Learned(cfg, s, r.setpoint, r.measurement, error, ffOutput, output, deadband, cycles);
            var u := s.(satCount := s.satCount + 1);
            && t.lastSetpoint == s.lastSetpoint && t.satCount == u.satCount && t.hold == s.hold
            && t.ff == if s.hold == 0 && Abs(r.setpoint) >= deadband
                       then LearnedSaturated(cfg, u, r.setpoint, r.measurement, satHigh, output).ff else s.ff
  {
    hide Observable, StepToward, PhysicalFF, BinIndex;
  }

  lemma LearnedFrom(cfg: Config, s: State, t: State, setpoint: real, measurement: real, satHigh: bool, output: real)
    requires cfg.Valid() && s.ff == t.ff && s.satCount == t.satCount
    ensures LearnedSaturated(cfg, s, setpoint, measurement, satHigh, output).ff
         == LearnedSaturated(cfg, t, setpoint, measurement, satHigh, output).ff
  {
    hide StepToward, PhysicalFF, BinIndex, Config.Deadband;
  }

  /** One saturated call at an unchanged setpoint, seen through the table, the count and the hold. */
  lemma CallLearns(cfg: Config, s: State, r: Reading, satHigh: bool)
    requires cfg.Valid() && s.lastSetpoint == r.setpoint && !IsZero(r.setpoint)
    requires SaturatedAt(cfg, FeedForward(cfg, s.ff, r.setpoint), satHigh)
    ensures var t, u := Called(cfg, s, r), s.(satCount := s.satCount + 1);
            && t.lastSetpoint == r.setpoint && t.satCount == u.satCount
            && t.ff == if t.hold == 0 && Abs(r.setpoint) >= cfg.DeadbandFor(r.setpoint)
                       then LearnedSaturated(cfg, u, r.setpoint, r.measurement, satHigh, t.lastOutput).ff else s.ff
  {
    SettledSame(cfg, s, r);
    hide Prepared, Settled, FeedForward, Output, Learned, LearningRaises, LearnedSaturated, Config.DeadbandFor,
      ErrorUsed, Cycles, SaturatedAt;
    var p, t := Prepared(cfg, s, r.setpoint, r.measurement, r.dt), Settled(cfg, s, r.setpoint, r.measurement, r.dt);
    var ffOutput := FeedForward(cfg, p.ff, r.setpoint);
    var output := Output(cfg, t, ffOutput, r.dt);
    LearnsSaturated(cfg, t, r, ErrorUsed(cfg, p, r.setpoint - r.measurement), ffOutput, output,
                    cfg.DeadbandFor(r.setpoint), Cycles(cfg.steadySeconds, r.dt, 1), satHigh);
    LearnedFrom(cfg, s.(satCount := s.satCount + 1), t.(satCount := t.satCount + 1), r.setpoint, r.measurement,
                satHigh, output);
  }

  // ---- One call contracts ----

  /** A call that may learn: past the hold and the escape count, with a setpoint and readings large enough. */
  predicate Counts(cfg: Config, s: State, r: Reading, satHigh: bool)
    requires cfg.Valid()
  {
    var t := Called(cfg, s, r);
    && t.hold == 0 && Abs(r.setpoint) >= cfg.DeadbandFor(r.setpoint)
    && Observable(cfg, s.(satCount := s.satCount + 1), r.measurement, satHigh, t.lastOutput)
  }

  /** Every driven call leaves the table alone or contracts the setpoint's bin by exactly `Move`; one that may learn
      does so exactly when that is above 1e-6. */
  lemma CallContracts(cfg: Config, s: State, r: Reading, setpoint: real, beta: real, satHigh: bool)
    requires Learnable(cfg, s, beta, satHigh) && s.lastSetpoint == setpoint && !IsZero(setpoint)
    requires Drives(cfg, s, r, setpoint, beta, satHigh)
    ensures var t, d := Called(cfg, s, r), Distance(cfg, s, setpoint, beta, satHigh);
            && Learnable(cfg, t, beta, satHigh) && t.lastSetpoint == setpoint && t.satCount == s.satCount + 1
            && (t.ff != s.ff ==> Distance(cfg, t, setpoint, beta, satHigh) == d - Move(cfg, d))
            && (t.ff != s.ff ==> Move(cfg, d) > 0.000001)
            && (Counts(cfg, s, r, satHigh) ==> (t.ff != s.ff <==> Move(cfg, d) > 0.000001))
  {
    var t, u := Called(cfg, s, r), s.(satCount := s.satCount + 1);
    var v := Attempt(cfg, u, setpoint, t.lastOutput, beta, satHigh);
    assert cfg.Valid() && beta != 0.0;
    CallLearns(cfg, s, r, satHigh);
    SameTable(cfg, s, u, setpoint, beta, satHigh);
    SaturationContracts(cfg, u, setpoint, t.lastOutput, beta, satHigh);
    AttemptIs(cfg, u, setpoint, r.measurement, t.lastOutput, beta, satHigh);
    hide Called, Move, Attempt, LearnedSaturated, Learnable, Distance, Usable, Observable, FeedForward, SaturatedAt;
    if t.ff == v.ff {
      SameTable(cfg, t, v, setpoint, beta, satHigh);
    }
    if t.ff == s.ff {
      SameTable(cfg, t, s, setpoint, beta, satHigh);
    }
  }

  lemma SameTable(cfg: Config, s: State, t: State, setpoint: real, beta: real, satHigh: bool)
    requires cfg.Valid() && beta != 0.0 && s.ff == t.ff
    ensures Distance(cfg, s, setpoint, beta, satHigh) == Distance(cfg, t, setpoint, beta, satHigh)
    ensures Learnable(cfg, s, beta, satHigh) <==> Learnable(cfg, t, beta, satHigh)
  {}

  lemma AttemptIs(cfg: Config, u: State, setpoint: real, measurement: real, output: real, beta: real, satHigh: bool)
    requires cfg.Valid() && measurement == beta * output
    ensures Attempt(cfg, u, setpoint, output, beta, satHigh).ff
         == LearnedSaturated(cfg, u, setpoint, measurement, satHigh, output).ff
    ensures Attempt(cfg, u, setpoint, output, beta, satHigh)
        == u.(ff := Attempt(cfg, u, setpoint, output, beta, satHigh).ff)
    ensures Usable(cfg, u, beta, satHigh, output) <==> Observable(cfg, u, measurement, satHigh, output)
  {
    hide Observable, StepToward, PhysicalFF, BinIndex;
  }

  // ---- Whole runs ----

  ghost predicate AllDrive(cfg: Config, s: State, rs: seq<Reading>, setpoint: real, beta: real, satHigh: bool)
    requires cfg.Valid()
  {
    forall k :: 0 <= k < |rs| ==> Drives(cfg, After(cfg, s, rs[..k]), rs[k], setpoint, beta, satHigh)
  }

  /** How many calls of the run changed the table. */
  function TableUpdates(cfg: Config, s: State, rs: seq<Reading>): nat
    requires cfg.Valid()
    decreases |rs|
  {
    if rs == [] then 0
    else
      var before := After(cfg, s, rs[..|rs| - 1]);
      TableUpdates(cfg, s, rs[..|rs| - 1]) + if Called(cfg, before, rs[|rs| - 1]).ff != before.ff then 1 else 0
  }

  /** How many might have. */
  function Counting(cfg: Config, s: State, rs: seq<Reading>, satHigh: bool): nat
    requires cfg.Valid()
    decreases |rs|
  {
    if rs == [] then 0
    else
      Counting(cfg, s, rs[..|rs| - 1], satHigh)
        + if Counts(cfg, After(cfg, s, rs[..|rs| - 1]), rs[|rs| - 1], satHigh) then 1 else 0
  }

  lemma AfterLast(cfg: Config, s: State, rs: seq<Reading>)
    requires cfg.Valid() && rs != []
    ensures After(cfg, s, rs) == Called(cfg, After(cfg, s, rs[..|rs| - 1]), rs[|rs| - 1])
  {}

  lemma MoveShrinks(cfg: Config, d: real)
    requires 0.0 <= cfg.satAlpha && 0.0 <= cfg.satMaxStep && 0.0 <= d
    ensures Move(cfg, d - Move(cfg, d)) <= Move(cfg, d)
  {
    MulMono(0.0, d, cfg.satAlpha);
    MulMono(d - Move(cfg, d), d, cfg.satAlpha);
  }

  /** On any run of driven calls: each update spends more than 1e-6 of the initial distance, and either every call that
      might learn did, or the bin has settled. */
  lemma {:induction false} RunContracts(cfg: Config, s: State, rs: seq<Reading>, setpoint: real,
      beta: real, satHigh: bool)
    requires Learnable(cfg, s, beta, satHigh) && s.lastSetpoint == setpoint && !IsZero(setpoint)
    requires AllDrive(cfg, s, rs, setpoint, beta, satHigh)
    ensures var t := After(cfg, s, rs);
            && Learnable(cfg, t, beta, satHigh) && t.lastSetpoint == setpoint && t.satCount == s.satCount + |rs|
            && 0.000001 * TableUpdates(cfg, s, rs) as real
               <= Distance(cfg, s, setpoint, beta, satHigh) - Distance(cfg, t, setpoint, beta, satHigh)
            && (|| TableUpdates(cfg, s, rs) >= Counting(cfg, s, rs, satHigh)
                || Move(cfg, Distance(cfg, t, setpoint, beta, satHigh)) <= 0.000001)
    decreases |rs|
  {
    assert cfg.Valid() && beta != 0.0;
    hide Called, Compensated, Counts, Drives, Move, Distance, Learnable;
    if rs != [] {
      var init, r := rs[..|rs| - 1], rs[|rs| - 1];
      var before := After(cfg, s, init);
      assert forall k :: 0 <= k < |init| ==> init[..k] == rs[..k];
      RunContracts(cfg, s, init, setpoint, beta, satHigh);
      assert Drives(cfg, before, r, setpoint, beta, satHigh);
      CallContracts(cfg, before, r, setpoint, beta, satHigh);
      AfterLast(cfg, s, rs);
      StillSettled(cfg, before, Called(cfg, before, r), setpoint, beta, satHigh);
    }
  }

  /** Settled stays settled. */
  lemma StillSettled(cfg: Config, s: State, t: State, setpoint: real, beta: real, satHigh: bool)
    requires Learnable(cfg, s, beta, satHigh) && beta != 0.0
    requires var d := Distance(cfg, s, setpoint, beta, satHigh);
             t.ff != s.ff ==> Distance(cfg, t, setpoint, beta, satHigh) == d - Move(cfg, d)
    ensures Move(cfg, Distance(cfg, t, setpoint, beta, satHigh)) <= Move(cfg, Distance(cfg, s, setpoint, beta, satHigh))
  {
    if t.ff == s.ff {
      SameTable(cfg, s, t, setpoint, beta, satHigh);
    } else {
      hide Move, TargetFF, BinIndex;
      MoveShrinks(cfg, Distance(cfg, s, setpoint, beta, satHigh));
    }
  }

  // ---- When the hold is over ----

  ghost predicate SameSetpoint(rs: seq<Reading>, setpoint: real) {
    forall k :: 0 <= k < |rs| ==> rs[k].setpoint == setpoint
  }

  lemma {:induction false} HoldRuns(cfg: Config, s: State, rs: seq<Reading>, setpoint: real)
    requires cfg.Valid() && cfg.ChangeThreshold() > 0.0 && !IsZero(setpoint)
    requires s.lastSetpoint == setpoint && SameSetpoint(rs, setpoint)
    ensures var t := After(cfg, s, rs);
            && t.lastSetpoint == setpoint && t.holdInitial == s.holdInitial
            && (t.hold > 0 ==> t.cyclesInHold == s.cyclesInHold + |rs|)
            && (t.hold > 0 && rs != [] ==> t.cyclesInHold < 3 * s.holdInitial)
    decreases |rs|
  {
    hide Prepared, Compensated, Shrinks;
    if rs != [] {
      var before, r := After(cfg, s, rs[..|rs| - 1]), rs[|rs| - 1];
      HoldRuns(cfg, s, rs[..|rs| - 1], setpoint);
      UnchangedPrepared(cfg, before, r);
      CallHold(cfg, before, r);
    }
  }

  /** How many calls it may take until every one of them may learn. */
  function Patience(cfg: Config, s: State): nat {
    var hold := 3 * s.holdInitial;
    if cfg.satMinCycles > hold then cfg.satMinCycles else hold
  }

  /** The meter and the output are large enough to learn from. */
  predicate Shown(cfg: Config, s: State, r: Reading, satHigh: bool)
    requires cfg.Valid()
  {
    var floor := Max(cfg.Deadband(), 1.0);
    && Abs(r.measurement) >= floor && (if satHigh then r.measurement > 0.0 else r.measurement < 0.0)
    && Abs(Called(cfg, s, r).lastOutput) >= floor
  }

  lemma ShownCounts(cfg: Config, s: State, r: Reading, satHigh: bool)
    requires cfg.Valid() && Shown(cfg, s, r, satHigh) && Called(cfg, s, r).hold == 0
    requires Abs(r.setpoint) >= cfg.DeadbandFor(r.setpoint) && s.satCount + 1 >= cfg.satMinCycles
    ensures Counts(cfg, s, r, satHigh)
  {
    hide Called, Config.Deadband, Config.DeadbandFor;
  }

  ghost predicate AllShown(cfg: Config, s: State, rs: seq<Reading>, satHigh: bool)
    requires cfg.Valid()
  {
    forall k :: 0 <= k < |rs| ==> Shown(cfg, After(cfg, s, rs[..k]), rs[k], satHigh)
  }

  ghost predicate Saturating(cfg: Config, s: State, rs: seq<Reading>, setpoint: real, beta: real, satHigh: bool)
    requires cfg.Valid()
  {
    && AllDrive(cfg, s, rs, setpoint, beta, satHigh) && AllShown(cfg, s, rs, satHigh)
    && cfg.ChangeThreshold() > 0.0 && Abs(setpoint) >= cfg.DeadbandFor(setpoint)
  }

  lemma SaturatingInit(cfg: Config, s: State, rs: seq<Reading>, setpoint: real, beta: real, satHigh: bool)
    requires cfg.Valid() && rs != [] && Saturating(cfg, s, rs, setpoint, beta, satHigh)
    ensures Saturating(cfg, s, rs[..|rs| - 1], setpoint, beta, satHigh) && SameSetpoint(rs, setpoint)
    ensures Shown(cfg, After(cfg, s, rs[..|rs| - 1]), rs[|rs| - 1], satHigh)
  {
    hide Shown, Config.DeadbandFor, Config.ChangeThreshold, After;
    var init := rs[..|rs| - 1];
    assert forall k :: 0 <= k < |init| ==> init[..k] == rs[..k];
    forall k | 0 <= k < |rs| ensures rs[k].setpoint == setpoint {
      assert Drives(cfg, After(cfg, s, rs[..k]), rs[k], setpoint, beta, satHigh);
    }
  }

  /** Past the patience every call may learn. */
  lemma LastCounts(cfg: Config, s: State, rs: seq<Reading>, setpoint: real, beta: real, satHigh: bool)
    requires Learnable(cfg, s, beta, satHigh) && s.lastSetpoint == setpoint && !IsZero(setpoint)
    requires Saturating(cfg, s, rs, setpoint, beta, satHigh) && |rs| > Patience(cfg, s)
    ensures Counts(cfg, After(cfg, s, rs[..|rs| - 1]), rs[|rs| - 1], satHigh)
  {
    SaturatingInit(cfg, s, rs, setpoint, beta, satHigh);
    HoldRuns(cfg, s, rs, setpoint);
    AfterLast(cfg, s, rs);
    RunContracts(cfg, s, rs[..|rs| - 1], setpoint, beta, satHigh);
    hide Called, Counts, Learnable, Shown, Config.DeadbandFor, After, AllDrive, AllShown, SameSetpoint;
    ShownCounts(cfg, After(cfg, s, rs[..|rs| - 1]), rs[|rs| - 1], satHigh);
  }

  lemma {:induction false} MostCount(cfg: Config, s: State, rs: seq<Reading>, setpoint: real, beta: real, satHigh: bool)
    requires Learnable(cfg, s, beta, satHigh) && s.lastSetpoint == setpoint && !IsZero(setpoint)
    requires Saturating(cfg, s, rs, setpoint, beta, satHigh)
    ensures Counting(cfg, s, rs, satHigh) >= |rs| - Patience(cfg, s)
    decreases |rs|
  {
    assert cfg.Valid();
    hide Counts, Learnable, Saturating, After;
    if rs != [] {
      SaturatingInit(cfg, s, rs, setpoint, beta, satHigh);
      MostCount(cfg, s, rs[..|rs| - 1], setpoint, beta, satHigh);
      if |rs| > Patience(cfg, s) {
        LastCounts(cfg, s, rs, setpoint, beta, satHigh);
      }
    }
  }

  /** At one saturating setpoint the bin settles: after more than distance / 1e-6 calls beyond the longest possible hold
      and the escape count, the next move is at most 1e-6. */
  lemma RunSettles(cfg: Config, s: State, rs: seq<Reading>, setpoint: real, beta: real, satHigh: bool)
    requires Learnable(cfg, s, beta, satHigh) && s.lastSetpoint == setpoint && !IsZero(setpoint)
    requires Saturating(cfg, s, rs, setpoint, beta, satHigh)
    requires 0.000001 * (|rs| - Patience(cfg, s)) as real > Distance(cfg, s, setpoint, beta, satHigh)
    ensures Move(cfg, Distance(cfg, After(cfg, s, rs), setpoint, beta, satHigh)) <= 0.000001
  {
    hide Move, After, AllDrive, AllShown, TargetFF, BinIndex, Config.DeadbandFor;
    MostCount(cfg, s, rs, setpoint, beta, satHigh);
    RunContracts(cfg, s, rs, setpoint, beta, satHigh);
  }
}
