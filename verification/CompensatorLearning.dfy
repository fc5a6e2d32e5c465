/** Saturation learning contracts toward the factor the plant shows, and what a new setpoint's bin inherits. */
module CompensatorLearning {
  import opened Numeric
  import opened FFTable
  import opened CompensatorModel
  import opened CompensatorRuns

  // ---- Saturation learning ----

  /** The factor that makes the plant deliver the setpoint, when the meter shows beta times the output. */
  function TargetFF(beta: real, satHigh: bool): real
    requires beta != 0.0
  {
    if satHigh then 1.0 / beta else beta
  }

  lemma PhysicalIsTarget(beta: real, satHigh: bool, output: real)
    requires beta != 0.0 && output != 0.0
    ensures beta * output != 0.0
    ensures PhysicalFF(beta * output, satHigh, output) == TargetFF(beta, satHigh)
  {
    if satHigh {
      assert 1.0 / beta * (beta * output) == output;
    }
  }

  /** How much one update takes off a distance d. */
  function Move(cfg: Config, d: real): real {
    Min(cfg.satAlpha * d, cfg.satMaxStep)
  }

  /** One move toward the target: never past it, by exactly `Move`. */
  lemma StepContracts(cfg: Config, oldFF: real, target: real)
    requires 0.0 <= cfg.satAlpha <= 1.0 && 0.0 <= cfg.satMaxStep
    requires cfg.ffMin <= target <= cfg.ffMax && cfg.ffMin <= oldFF <= cfg.ffMax
    ensures var d, f := Abs(target - oldFF), StepToward(cfg, oldFF, target);
            && Abs(target - f) == d - Move(cfg, d)
            && Abs(f - oldFF) == Move(cfg, d)
            && (oldFF <= target ==> oldFF <= f <= target)
            && (target <= oldFF ==> target <= f <= oldFF)
  {
    var e := cfg.satAlpha * (target - oldFF);
    BlendForm(cfg.satAlpha, target, oldFF, e);
    StepPart(cfg.satAlpha, target - oldFF, e, Abs(target - oldFF));
    MoveIs(cfg, Abs(target - oldFF), Abs(e));
    hide Blend, Move, StepToward;
    StepBy(cfg, oldFF, target, e);
  }

  lemma StepBy(cfg: Config, oldFF: real, target: real, e: real)
    requires cfg.ffMin <= target <= cfg.ffMax && cfg.ffMin <= oldFF <= cfg.ffMax && 0.0 <= cfg.satMaxStep
    requires Blend(cfg.satAlpha, target, oldFF) == oldFF + e
    requires Move(cfg, Abs(target - oldFF)) == Min(Abs(e), cfg.satMaxStep)
    requires Abs(e) <= Abs(target - oldFF)
    requires (0.0 <= target - oldFF ==> 0.0 <= e) && (target - oldFF <= 0.0 ==> e <= 0.0)
    ensures var d, f := Abs(target - oldFF), StepToward(cfg, oldFF, target);
            && Abs(target - f) == d - Move(cfg, d) && Abs(f - oldFF) == Move(cfg, d)
            && (oldFF <= target ==> oldFF <= f <= target) && (target <= oldFF ==> target <= f <= oldFF)
  {
    hide Blend, Move, Clamp, Config.Bound;
    StepLinear(cfg, oldFF, target, e, cfg.satMaxStep);
  }

  lemma MoveIs(cfg: Config, d: real, k: real)
    requires k == cfg.satAlpha * d
    ensures Move(cfg, d) == Min(k, cfg.satMaxStep)
  {}

  lemma BlendForm(alpha: real, target: real, oldFF: real, e: real)
    requires e == alpha * (target - oldFF)
    ensures Blend(alpha, target, oldFF) == oldFF + e
  {}

  /** A part of a difference has its sign, and that part of its size. */
  lemma StepPart(alpha: real, d: real, e: real, size: real)
    requires 0.0 <= alpha <= 1.0 && e == alpha * d && size == Abs(d)
    ensures Abs(e) == alpha * size && Abs(e) <= size
    ensures (0.0 <= d ==> 0.0 <= e) && (d <= 0.0 ==> e <= 0.0)
  {
    if 0.0 <= d {
      PartOfSize(alpha, d, e);
      SameProduct(alpha, d, size);
    } else {
      NegatedProduct(alpha, d, e);
      PartOfSize(alpha, -d, -e);
      SameProduct(alpha, -d, size);
    }
  }

  lemma PartOfSize(alpha: real, size: real, e: real)
    requires 0.0 <= alpha <= 1.0 && 0.0 <= size && e == alpha * size
    ensures 0.0 <= e <= size
  {
    MulMono(0.0, size, alpha);
    MulMono(alpha, 1.0, size);
  }

  lemma NegatedProduct(alpha: real, d: real, e: real)
    requires e == alpha * d
    ensures -e == alpha * -d
  {}

  lemma SameProduct(alpha: real, x: real, y: real)
    requires x == y
    ensures alpha * x == alpha * y
  {}

  lemma StepLinear(cfg: Config, oldFF: real, target: real, e: real, m: real)
    requires cfg.ffMin <= target <= cfg.ffMax && cfg.ffMin <= oldFF <= cfg.ffMax && 0.0 <= m
    requires Abs(e) <= Abs(target - oldFF)
    requires (0.0 <= target - oldFF ==> 0.0 <= e) && (target - oldFF <= 0.0 ==> e <= 0.0)
    ensures var f := cfg.Bound(Clamp(oldFF + e, oldFF - m, oldFF + m));
            && Abs(target - f) == Abs(target - oldFF) - Min(Abs(e), m)
            && Abs(f - oldFF) == Min(Abs(e), m)
            && (oldFF <= target ==> oldFF <= f <= target)
            && (target <= oldFF ==> target <= f <= oldFF)
  {}

  /** The meter shows a usable reading for this output. */
  predicate Usable(cfg: Config, s: State, beta: real, satHigh: bool, output: real) {
    Observable(cfg, s, beta * output, satHigh, output)
  }

  /** A saturated call with plant gain beta. */
  function Attempt(cfg: Config, s: State, setpoint: real, output: real, beta: real, satHigh: bool): State
    requires cfg.Valid()
  {
    LearnedSaturated(cfg, s, setpoint, beta * output, satHigh, output)
  }

  /** How far the setpoint's bin still is from the target. */
  function Distance(cfg: Config, s: State, setpoint: real, beta: real, satHigh: bool): real
    requires cfg.Valid() && beta != 0.0
  {
    Abs(TargetFF(beta, satHigh) - Bin(s.ff, BinIndex(cfg.rated, cfg.step, setpoint)))
  }

  ghost predicate Learnable(cfg: Config, s: State, beta: real, satHigh: bool) {
    && cfg.Valid() && 0.0 <= cfg.satAlpha <= 1.0 && 0.0 <= cfg.satMaxStep && beta != 0.0
    && cfg.ffMin <= TargetFF(beta, satHigh) <= cfg.ffMax
    && cfg.ffMin <= 1.0 <= cfg.ffMax
    && (forall i :: i in s.ff ==> cfg.ffMin <= s.ff[i] <= cfg.ffMax)
  }

  /** Every saturated call either leaves the table alone or shrinks the bin's distance by exactly
      min(alpha * distance, maxStep); with usable readings it moves exactly when that is above 1e-6. */
  lemma SaturationContracts(cfg: Config, s: State, setpoint: real, output: real, beta: real, satHigh: bool)
    requires Learnable(cfg, s, beta, satHigh)
    ensures var t := Attempt(cfg, s, setpoint, output, beta, satHigh);
            var d := Distance(cfg, s, setpoint, beta, satHigh);
            && Learnable(cfg, t, beta, satHigh) && t.satCount == s.satCount
            && (t != s ==> Distance(cfg, t, setpoint, beta, satHigh) == d - Move(cfg, d) && Move(cfg, d) > 0.000001)
            && (Usable(cfg, s, beta, satHigh, output) ==> (t != s <==> Move(cfg, d) > 0.000001))
  {
    hide BinIndex, Observable, PhysicalFF, StepToward, TargetFF, Move;
    var idx := BinIndex(cfg.rated, cfg.step, setpoint);
    if Usable(cfg, s, beta, satHigh, output) {
      UsableOutput(cfg, s, beta * output, satHigh, output);
      PhysicalIsTarget(beta, satHigh, output);
      StepContracts(cfg, Bin(s.ff, idx), TargetFF(beta, satHigh));
    }
  }

  lemma UsableOutput(cfg: Config, s: State, measurement: real, satHigh: bool, output: real)
    requires Observable(cfg, s, measurement, satHigh, output)
    ensures output != 0.0 && measurement != 0.0
  {}

  datatype Sample = Sample(setpoint: real, output: real)

  function Attempts(cfg: Config, s: State, xs: seq<Sample>, beta: real, satHigh: bool): State
    requires cfg.Valid()
    decreases |xs|
  {
    if xs == [] then s
    else
      var x := xs[|xs| - 1];
      Attempt(cfg, Attempts(cfg, s, xs[..|xs| - 1], beta, satHigh), x.setpoint, x.output, beta, satHigh)
  }

  /** How many of the calls changed the table. */
  function Updates(cfg: Config, s: State, xs: seq<Sample>, beta: real, satHigh: bool): nat
    requires cfg.Valid()
    decreases |xs|
  {
    if xs == [] then 0
    else
      var x := xs[|xs| - 1];
      var before := Attempts(cfg, s, xs[..|xs| - 1], beta, satHigh);
      Updates(cfg, s, xs[..|xs| - 1], beta, satHigh)
        + if Attempt(cfg, before, x.setpoint, x.output, beta, satHigh) != before then 1 else 0
  }

  /** Saturated calls on one bin, with any outputs: each update spends more than 1e-6 of the initial
      distance. With usable readings throughout, either every call updated or the bin has settled. */
  lemma {:induction false} UpdatesBounded(cfg: Config, s: State, xs: seq<Sample>, beta: real, satHigh: bool,
                                          setpoint: real)
    requires Learnable(cfg, s, beta, satHigh)
    requires forall x :: x in xs ==>
      BinIndex(cfg.rated, cfg.step, x.setpoint) == BinIndex(cfg.rated, cfg.step, setpoint)
    ensures var t := Attempts(cfg, s, xs, beta, satHigh);
            && Learnable(cfg, t, beta, satHigh) && t.satCount == s.satCount
            && 0.000001 * Updates(cfg, s, xs, beta, satHigh) as real
               <= Distance(cfg, s, setpoint, beta, satHigh) - Distance(cfg, t, setpoint, beta, satHigh)
            && (|| (exists x :: x in xs && !Usable(cfg, s, beta, satHigh, x.output))
                || Updates(cfg, s, xs, beta, satHigh) == |xs|
                || Move(cfg, Distance(cfg, t, setpoint, beta, satHigh)) <= 0.000001)
    decreases |xs|
  {
    assert cfg.Valid() && beta != 0.0;
    hide BinIndex, Usable, Attempt, TargetFF, Move, Bin, Learnable;
    if xs != [] {
      var init, x := xs[..|xs| - 1], xs[|xs| - 1];
      assert x in xs && forall y :: y in init ==> y in xs;
      UpdatesBounded(cfg, s, init, beta, satHigh, setpoint);
      OneMore(cfg, s, xs, beta, satHigh, setpoint);
    }
  }

  lemma OneMore(cfg: Config, s: State, xs: seq<Sample>, beta: real, satHigh: bool, setpoint: real)
    requires cfg.Valid() && beta != 0.0 && xs != []
    requires BinIndex(cfg.rated, cfg.step, xs[|xs| - 1].setpoint) == BinIndex(cfg.rated, cfg.step, setpoint)
    requires var before := Attempts(cfg, s, xs[..|xs| - 1], beta, satHigh);
             Learnable(cfg, before, beta, satHigh) && before.satCount == s.satCount
    ensures var before, x := Attempts(cfg, s, xs[..|xs| - 1], beta, satHigh), xs[|xs| - 1];
            var t := Attempts(cfg, s, xs, beta, satHigh);
            var d := Distance(cfg, before, setpoint, beta, satHigh);
            && Learnable(cfg, t, beta, satHigh) && t.satCount == s.satCount
            && Updates(cfg, s, xs, beta, satHigh)
               == Updates(cfg, s, xs[..|xs| - 1], beta, satHigh) + (if t == before then 0 else 1)
            && (t != before ==> Distance(cfg, t, setpoint, beta, satHigh) < d - 0.000001)
            && (Usable(cfg, s, beta, satHigh, x.output) && t == before ==> Move(cfg, d) <= 0.000001)
            && (Usable(cfg, s, beta, satHigh, x.output) && t != before ==> Move(cfg, d) > 0.000001)
  {
    hide BinIndex, Usable, Attempt, TargetFF, Move, Bin, Learnable;
    var before, x := Attempts(cfg, s, xs[..|xs| - 1], beta, satHigh), xs[|xs| - 1];
    SameReadings(cfg, s, before, beta, satHigh, x.output);
    SaturationContracts(cfg, before, x.setpoint, x.output, beta, satHigh);
  }

  lemma SameReadings(cfg: Config, s: State, t: State, beta: real, satHigh: bool, output: real)
    requires s.satCount == t.satCount
    ensures Usable(cfg, s, beta, satHigh, output) == Usable(cfg, t, beta, satHigh, output)
  {}

  /** So usable calls settle the bin: after more than distance / 1e-6 of them the next move is at most 1e-6. */
  lemma SaturationSettles(cfg: Config, s: State, xs: seq<Sample>, beta: real, satHigh: bool, setpoint: real)
    requires Learnable(cfg, s, beta, satHigh)
    requires forall x :: x in xs ==>
      && BinIndex(cfg.rated, cfg.step, x.setpoint) == BinIndex(cfg.rated, cfg.step, setpoint)
      && Usable(cfg, s, beta, satHigh, x.output)
    requires 0.000001 * |xs| as real > Distance(cfg, s, setpoint, beta, satHigh)
    ensures Move(cfg, Distance(cfg, Attempts(cfg, s, xs, beta, satHigh), setpoint, beta, satHigh)) <= 0.000001
  {
    hide BinIndex, Usable, Move, Attempts, Updates;
    UpdatesBounded(cfg, s, xs, beta, satHigh, setpoint);
  }

  // ---- Inheritance ----

  lemma BinSign(rated: real, step: int, power: real)
    requires rated > 0.0 && 0 < step
    ensures power >= 0.0 ==> BinIndex(rated, step, power) >= 0
    ensures power <= 0.0 ==> BinIndex(rated, step, power) <= 0
  {
    DivMono(0.0, power, rated);
    DivMono(power, 0.0, rated);
    DivMono(0.0, power / rated * 100.0, step as real);
    DivMono(power / rated * 100.0, 0.0, step as real);
    RoundSign(Position(rated, step, power), BinCount(step));
  }

  lemma RoundSign(pos: real, n: int)
    requires n >= 0
    ensures pos >= 0.0 ==> ClampInt(Round(pos), -n, n) >= 0
    ensures pos <= 0.0 ==> ClampInt(Round(pos), -n, n) <= 0
  {}

  /** Inheritance fills the new setpoint's bin from the old one's exactly when they differ, are not on opposite sides
      of the zero bin, and the new one is unlearned while the old one is learned; no other bin ever changes. */
  lemma InheritanceFillsBlank(cfg: Config, ff: Table, oldSetpoint: real, newSetpoint: real)
    requires cfg.Valid() && Full(ff, BinCount(cfg.step))
    ensures var r := Inherited(cfg, ff, oldSetpoint, newSetpoint);
            var from, to := BinIndex(cfg.rated, cfg.step, oldSetpoint), BinIndex(cfg.rated, cfg.step, newSetpoint);
            && (forall i :: i != to ==> Bin(r, i) == Bin(ff, i))
            && (Bin(r, to) == Bin(ff, to) || Bin(r, to) == Bin(ff, from))
            && (Bin(r, to) != Bin(ff, to) <==>
                && from != to && !(from < 0 < to) && !(to < 0 < from)
                && Abs(Bin(ff, to) - 1.0) < 0.000001 && Abs(Bin(ff, from) - 1.0) > 0.000001)
  {
    BinInTable(cfg, newSetpoint);
    hide BinIndex;
    var from, to := BinIndex(cfg.rated, cfg.step, oldSetpoint), BinIndex(cfg.rated, cfg.step, newSetpoint);
    MulMonoInt(from, -1, to);
    MulMonoInt(to, -1, from);
    MulMonoInt(0, from, to);
    MulMonoInt(from, 0, -to);
  }

  /** Between setpoints of opposite signs a factor is inherited exactly when one of the two falls into the zero bin,
      the new one's bin is unlearned and the old one's is learned. */
  lemma InheritsAcrossSignsIff(cfg: Config, ff: Table, oldSetpoint: real, newSetpoint: real)
    requires cfg.Valid() && Full(ff, BinCount(cfg.step))
    requires oldSetpoint < 0.0 < newSetpoint || newSetpoint < 0.0 < oldSetpoint
    ensures var from, to := BinIndex(cfg.rated, cfg.step, oldSetpoint), BinIndex(cfg.rated, cfg.step, newSetpoint);
            Inherited(cfg, ff, oldSetpoint, newSetpoint) != ff <==>
            && (from == 0) != (to == 0)
            && Abs(Bin(ff, to) - 1.0) < 0.000001 && Abs(Bin(ff, from) - 1.0) > 0.000001
  {
    BinSign(cfg.rated, cfg.step, oldSetpoint);
    BinSign(cfg.rated, cfg.step, newSetpoint);
    BinInTable(cfg, oldSetpoint);
    BinInTable(cfg, newSetpoint);
    hide BinIndex;
    var from, to := BinIndex(cfg.rated, cfg.step, oldSetpoint), BinIndex(cfg.rated, cfg.step, newSetpoint);
    MulMonoInt(from, -1, to);
    MulMonoInt(to, -1, from);
    var r := Inherited(cfg, ff, oldSetpoint, newSetpoint);
    assert r != ff <==> Bin(r, to) != Bin(ff, to);
  }

  /** A factor learned while charging at 1 percent is inherited by a discharge bin, through the zero bin. */
  lemma InheritsAcrossSigns(cfg: Config, ff: Table)
    requires cfg.Valid() && cfg.rated == 100.0 && cfg.step == 5
    requires 0 in ff && ff[0] == 1.2 && 2 in ff && ff[2] == 1.0
    ensures Bin(Inherited(cfg, ff, -1.0, 10.0), 2) == 1.2
  {
    assert BinIndex(100.0, 5, -1.0) == 0 && BinIndex(100.0, 5, 10.0) == 2;
  }
}
