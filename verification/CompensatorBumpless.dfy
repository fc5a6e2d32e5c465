/** Steady-state learning moves the integral term into a bin: exactly when that leaves the output where it was. */
module CompensatorBumpless {
  import opened Numeric
  import opened FFTable
  import opened CompensatorModel
  import opened CompensatorRuns

  // ---- One bin ----

  /** The setpoint is a bin centre, or lies beyond the last bin: a read involves one bin only. */
  predicate ReadsOneBin(cfg: Config, setpoint: real)
    requires cfg.Valid()
  {
    var pos, n := Position(cfg.rated, cfg.step, setpoint), BinCount(cfg.step);
    ClampInt(pos.Floor, -n, n) == ClampInt(Ceil(pos), -n, n)
  }

  lemma OneBinRead(cfg: Config, t: Table, setpoint: real)
    requires cfg.Valid() && ReadsOneBin(cfg, setpoint)
    ensures Read(t, cfg.rated, cfg.step, setpoint) == Bin(t, BinIndex(cfg.rated, cfg.step, setpoint))
  {
    hide Bin;
    RoundBetween(Position(cfg.rated, cfg.step, setpoint), BinCount(cfg.step));
  }

  lemma RoundBetween(pos: real, n: int)
    requires 0 <= n && ClampInt(pos.Floor, -n, n) == ClampInt(Ceil(pos), -n, n)
    ensures ClampInt(Round(pos), -n, n) == ClampInt(pos.Floor, -n, n)
  {
    assert pos.Floor <= Round(pos) <= Ceil(pos);
  }

  /** Feed-forward through one factor. */
  function Through(f: real, setpoint: real): real
    requires f != 0.0 || setpoint >= 0.0
  {
    if setpoint >= 0.0 then f * setpoint else setpoint / f
  }

  /** The unlimited output: feed-forward plus the integral's contribution. */
  function Total(cfg: Config, s: State, setpoint: real): real
    requires cfg.Valid()
  {
    FeedForward(cfg, s.ff, setpoint) + cfg.Contribution(s.integral)
  }

  lemma ThroughInjective(f: real, g: real, setpoint: real)
    requires setpoint > 0.0 || (f != 0.0 && g != 0.0 && setpoint < 0.0)
    ensures Through(f, setpoint) == Through(g, setpoint) <==> f == g
  {
    if Through(f, setpoint) == Through(g, setpoint) {
      if setpoint > 0.0 {
        assert (f - g) * setpoint == 0.0;
      } else {
        var q := setpoint / f;
        assert q * f == setpoint && q * g == setpoint;
        assert q * (f - g) == 0.0;
      }
    }
  }

  /** The absorbing factor reproduces feed-forward plus contribution, unless the code kept the old one. */
  lemma AbsorbingReproduces(oldFF: real, setpoint: real, iTerm: real)
    requires setpoint != 0.0 && oldFF != 0.0
    ensures var f := AbsorbingFF(oldFF, setpoint, iTerm);
            && (setpoint < 0.0 ==> f != 0.0)
            && (Through(f, setpoint) == Through(oldFF, setpoint) + iTerm || f == oldFF)
  {
    var f := AbsorbingFF(oldFF, setpoint, iTerm);
    if setpoint >= 0.0 {
      assert f * setpoint == oldFF * setpoint + iTerm;
    } else {
      var denom := setpoint / oldFF + iTerm;
      if Abs(denom) > 0.000001 {
        assert f * denom == setpoint;
        DivOf(setpoint, f, denom);
      }
    }
  }

  ghost predicate Learning(cfg: Config, s: State, setpoint: real) {
    && cfg.Valid() && cfg.ffMin <= cfg.ffMax && setpoint != 0.0
    && Full(s.ff, BinCount(cfg.step)) && InRange(cfg, s.ff)
  }

  function TargetOf(cfg: Config, s: State, setpoint: real): real
    requires Learning(cfg, s, setpoint)
  {
    var idx := BinIndex(cfg.rated, cfg.step, setpoint);
    BinInTable(cfg, setpoint);
    AbsorbingFF(Bin(s.ff, idx), setpoint, cfg.Contribution(s.integral))
  }

  /** The bin's factor is large enough for a charging read to divide by it, before and after learning. */
  ghost predicate Visible(cfg: Config, s: State, setpoint: real)
    requires Learning(cfg, s, setpoint)
  {
    && 0.000001 < Bin(s.ff, BinIndex(cfg.rated, cfg.step, setpoint))
    && 0.000001 < cfg.Bound(TargetOf(cfg, s, setpoint))
  }

  /** Learning at a one-bin setpoint of either sign: an update zeroes the integral, and it leaves the
      total output unchanged exactly when the factor limits do not act. */
  lemma BumplessLearning(cfg: Config, s: State, setpoint: real, deadband: real)
    requires Learning(cfg, s, setpoint) && ReadsOneBin(cfg, setpoint)
    requires setpoint < 0.0 ==> Visible(cfg, s, setpoint)
    ensures var idx, target := BinIndex(cfg.rated, cfg.step, setpoint), TargetOf(cfg, s, setpoint);
            var r := Absorbed(cfg, s, setpoint, deadband);
            || (r.ff == s.ff && r.integral == s.integral)
            || (r.integral == 0.0 && r.ff == s.ff[idx := cfg.Bound(target)]
                && (Total(cfg, r, setpoint) == Total(cfg, s, setpoint) <==> cfg.ffMin <= target <= cfg.ffMax))
  {
    BinInTable(cfg, setpoint);
    hide Position, BinIndex, AbsorbingFF, Read, ReadsOneBin, Through, Config.Ki;
    var idx := BinIndex(cfg.rated, cfg.step, setpoint);
    var iTerm := cfg.Contribution(s.integral);
    var oldFF := Bin(s.ff, idx);
    var target := TargetOf(cfg, s, setpoint);
    var newFF := cfg.Bound(target);
    var r := Absorbed(cfg, s, setpoint, deadband);
    if !(r.ff == s.ff && r.integral == s.integral) {
      TotalThrough(cfg, s, setpoint);
      TotalThrough(cfg, r, setpoint);
      ContributionZero(cfg);
      AbsorbingReproduces(oldFF, setpoint, iTerm);
      ThroughInjective(newFF, target, setpoint);
    }
  }

  lemma ContributionZero(cfg: Config)
    ensures cfg.Contribution(0.0) == 0.0
  {}

  lemma TotalThrough(cfg: Config, s: State, setpoint: real)
    requires cfg.Valid() && ReadsOneBin(cfg, setpoint)
    requires setpoint < 0.0 ==> 0.000001 < Bin(s.ff, BinIndex(cfg.rated, cfg.step, setpoint))
    ensures Total(cfg, s, setpoint)
         == Through(Bin(s.ff, BinIndex(cfg.rated, cfg.step, setpoint)), setpoint) + cfg.Contribution(s.integral)
  {
    OneBinRead(cfg, s.ff, setpoint);
    hide ReadsOneBin, Read, BinIndex, Config.Contribution;
  }

  // ---- Setpoints between bin centres ----

  function Fed(factor: real, x: real): real {
    factor * x
  }

  /** The weight of the learned bin in a read of two bins. */
  function Weight(cfg: Config, setpoint: real): real
    requires cfg.Valid()
  {
    var pos, n := Position(cfg.rated, cfg.step, setpoint), BinCount(cfg.step);
    var frac := pos - ClampInt(pos.Floor, -n, n) as real;
    if BinIndex(cfg.rated, cfg.step, setpoint) == ClampInt(pos.Floor, -n, n) then 1.0 - frac else frac
  }

  /** The factor of the other bin of a two-bin read. */
  function OtherBin(cfg: Config, t: Table, setpoint: real): real
    requires cfg.Valid()
  {
    var pos, n := Position(cfg.rated, cfg.step, setpoint), BinCount(cfg.step);
    Bin(t, ClampInt(pos.Floor, -n, n) + ClampInt(Ceil(pos), -n, n) - BinIndex(cfg.rated, cfg.step, setpoint))
  }

  lemma ReadMix(cfg: Config, t: Table, setpoint: real)
    requires cfg.Valid() && !ReadsOneBin(cfg, setpoint)
    ensures var w := Weight(cfg, setpoint);
            Read(t, cfg.rated, cfg.step, setpoint)
            == Fed(w, Bin(t, BinIndex(cfg.rated, cfg.step, setpoint))) + Fed(1.0 - w, OtherBin(cfg, t, setpoint))
  {
    var pos, n := Position(cfg.rated, cfg.step, setpoint), BinCount(cfg.step);
    hide Position;
    RoundInside(pos, n);
    hide Ceil, BinCount, Bin;
  }

  /** Learning moves a two-bin read by the bin's weight, which is less than one. */
  lemma TwoBinRead(cfg: Config, t: Table, setpoint: real, f: real)
    requires cfg.Valid() && !ReadsOneBin(cfg, setpoint)
    ensures 0.0 < Weight(cfg, setpoint) < 1.0
    ensures var idx := BinIndex(cfg.rated, cfg.step, setpoint);
            Read(t[idx := f], cfg.rated, cfg.step, setpoint)
            == Read(t, cfg.rated, cfg.step, setpoint) + Fed(Weight(cfg, setpoint), f - Bin(t, idx))
  {
    var idx, w := BinIndex(cfg.rated, cfg.step, setpoint), Weight(cfg, setpoint);
    TwoBins(cfg, t, setpoint, f);
    ReadMix(cfg, t, setpoint);
    ReadMix(cfg, t[idx := f], setpoint);
    FedAdd(w, Bin(t, idx), f - Bin(t, idx));
    assert Bin(t[idx := f], idx) == f;
    hide BinIndex, Weight, Read, OtherBin, Fed, Bin;
  }

  lemma FedAdd(w: real, x: real, y: real)
    ensures Fed(w, x + y) == Fed(w, x) + Fed(w, y)
  {}

  lemma TwoBins(cfg: Config, t: Table, setpoint: real, f: real)
    requires cfg.Valid() && !ReadsOneBin(cfg, setpoint)
    ensures 0.0 < Weight(cfg, setpoint) < 1.0
    ensures OtherBin(cfg, t[BinIndex(cfg.rated, cfg.step, setpoint) := f], setpoint) == OtherBin(cfg, t, setpoint)
  {
    var pos, n := Position(cfg.rated, cfg.step, setpoint), BinCount(cfg.step);
    hide Position;
    RoundInside(pos, n);
    hide Ceil, BinCount;
  }

  lemma RoundInside(pos: real, n: int)
    requires 0 <= n && ClampInt(pos.Floor, -n, n) != ClampInt(Ceil(pos), -n, n)
    ensures ClampInt(pos.Floor, -n, n) == pos.Floor && ClampInt(Ceil(pos), -n, n) == pos.Floor + 1
    ensures 0.0 < pos - pos.Floor as real < 1.0
    ensures ClampInt(Round(pos), -n, n) == pos.Floor || ClampInt(Round(pos), -n, n) == pos.Floor + 1
  {}

  /** A part of a step never makes up for all of it. */
  lemma PartFallsShort(w: real, step: real, whole: real, setpoint: real)
    requires 0.0 < w < 1.0 && setpoint > 0.0 && step != 0.0 && Abs(step) <= Abs(whole) && (step > 0.0 <==> whole > 0.0)
    ensures Fed(Fed(w, step), setpoint) != Fed(whole, setpoint)
  {
    Shortened(w, step);
    hide Fed;
    StaysDifferent(Fed(w, step), whole, setpoint);
  }

  lemma Shortened(w: real, step: real)
    requires 0.0 < w < 1.0
    ensures step > 0.0 ==> Fed(w, step) < step
    ensures step < 0.0 ==> step < Fed(w, step)
  {}

  lemma StaysDifferent(x: real, y: real, k: real)
    requires x != y && k > 0.0
    ensures Fed(x, k) != Fed(y, k)
  {
    if x < y {
      assert (y - x) * k > 0.0;
    } else {
      assert (x - y) * k > 0.0;
    }
  }

  /** When discharging, an update at any setpoint is bumpless exactly when the read involves one bin and the factor
      limits do not act. */
  lemma BumplessDischarge(cfg: Config, s: State, setpoint: real, deadband: real)
    requires Learning(cfg, s, setpoint) && setpoint > 0.0
    ensures var idx, target := BinIndex(cfg.rated, cfg.step, setpoint), TargetOf(cfg, s, setpoint);
            var r := Absorbed(cfg, s, setpoint, deadband);
            || (r.ff == s.ff && r.integral == s.integral)
            || (r.integral == 0.0 && r.ff == s.ff[idx := cfg.Bound(target)]
                && (Total(cfg, r, setpoint) == Total(cfg, s, setpoint)
                    <==> ReadsOneBin(cfg, setpoint) && cfg.ffMin <= target <= cfg.ffMax))
  {
    if ReadsOneBin(cfg, setpoint) {
      BumplessLearning(cfg, s, setpoint, deadband);
    } else {
      BinInTable(cfg, setpoint);
      BumpBetweenBins(cfg, s, setpoint, deadband);
    }
  }

  lemma BumpBetweenBins(cfg: Config, s: State, setpoint: real, deadband: real)
    requires Learning(cfg, s, setpoint) && setpoint > 0.0 && !ReadsOneBin(cfg, setpoint)
    ensures var idx, target := BinIndex(cfg.rated, cfg.step, setpoint), TargetOf(cfg, s, setpoint);
            var r := Absorbed(cfg, s, setpoint, deadband);
            || (r.ff == s.ff && r.integral == s.integral)
            || (r.integral == 0.0 && r.ff == s.ff[idx := cfg.Bound(target)]
                && Total(cfg, r, setpoint) != Total(cfg, s, setpoint))
  {
    BinInTable(cfg, setpoint);
    hide Position, BinIndex, AbsorbingFF, Read, ReadsOneBin, Config.Contribution, Weight, Fed, Total, InRange;
    var idx, w := BinIndex(cfg.rated, cfg.step, setpoint), Weight(cfg, setpoint);
    var oldFF, target := Bin(s.ff, idx), TargetOf(cfg, s, setpoint);
    var newFF := cfg.Bound(target);
    var r := Absorbed(cfg, s, setpoint, deadband);
    if !(r.ff == s.ff && r.integral == s.integral) {
      TwoBinRead(cfg, s.ff, setpoint, newFF);
      AbsorbedGap(oldFF, setpoint, cfg.Contribution(s.integral));
      BoundBetween(cfg, oldFF, target);
      PartFallsShort(w, newFF - oldFF, target - oldFF, setpoint);
      ContributionZero(cfg);
      TotalGap(cfg, s, r, setpoint, Fed(w, newFF - oldFF));
    }
  }

  lemma BoundBetween(cfg: Config, x: real, y: real)
    requires cfg.ffMin <= x <= cfg.ffMax
    ensures Abs(cfg.Bound(y) - x) <= Abs(y - x)
    ensures cfg.Bound(y) != x ==> (cfg.Bound(y) - x > 0.0 <==> y - x > 0.0)
  {}

  lemma AbsorbedGap(oldFF: real, setpoint: real, iTerm: real)
    requires setpoint > 0.0
    ensures Fed(AbsorbingFF(oldFF, setpoint, iTerm) - oldFF, setpoint) == iTerm
  {
    assert AbsorbingFF(oldFF, setpoint, iTerm) * setpoint == oldFF * setpoint + iTerm;
  }

  lemma TotalGap(cfg: Config, s: State, r: State, setpoint: real, gap: real)
    requires cfg.Valid() && setpoint > 0.0
    requires Read(r.ff, cfg.rated, cfg.step, setpoint) == Read(s.ff, cfg.rated, cfg.step, setpoint) + gap
    requires cfg.Contribution(r.integral) == 0.0
    ensures Total(cfg, r, setpoint) - Total(cfg, s, setpoint) == Fed(gap, setpoint) - cfg.Contribution(s.integral)
  {
    hide Read, Config.Contribution;
  }

  // ---- Charging at any setpoint ----

  /** The weight of the learned bin in any read. */
  function ReadWeight(cfg: Config, setpoint: real): real
    requires cfg.Valid()
  {
    if ReadsOneBin(cfg, setpoint) then 1.0 else Weight(cfg, setpoint)
  }

  /** What an update of the bin adds to a read of the setpoint. */
  function ReadGain(cfg: Config, s: State, setpoint: real): real
    requires Learning(cfg, s, setpoint)
  {
    var oldFF := Bin(s.ff, BinIndex(cfg.rated, cfg.step, setpoint));
    Fed(ReadWeight(cfg, setpoint), cfg.Bound(TargetOf(cfg, s, setpoint)) - oldFF)
  }

  lemma AnyRead(cfg: Config, t: Table, setpoint: real, f: real)
    requires cfg.Valid()
    ensures var idx := BinIndex(cfg.rated, cfg.step, setpoint);
            Read(t[idx := f], cfg.rated, cfg.step, setpoint)
            == Read(t, cfg.rated, cfg.step, setpoint) + Fed(ReadWeight(cfg, setpoint), f - Bin(t, idx))
  {
    hide Read, BinIndex, ReadsOneBin, Weight;
    var idx := BinIndex(cfg.rated, cfg.step, setpoint);
    if ReadsOneBin(cfg, setpoint) {
      OneBinRead(cfg, t, setpoint);
      OneBinRead(cfg, t[idx := f], setpoint);
    } else {
      TwoBinRead(cfg, t, setpoint, f);
    }
  }

  lemma CrossOver(s: real, a: real, b: real)
    requires a != 0.0 && b != 0.0
    ensures Fed(s / b - s / a, Fed(a, b)) == Fed(s, a - b)
  {
    var p, q := s / a, s / b;
    assert p * a == s && q * b == s;
    assert (q - p) * (a * b) == (q * b) * a - (p * a) * b;
    assert s * a - s * b == s * (a - b);
  }

  lemma FedZero(x: real, y: real)
    ensures Fed(x, y) == 0.0 <==> x == 0.0 || y == 0.0
  {}

  lemma FedSwap(x: real, y: real, z: real)
    ensures Fed(Fed(x, y), z) == Fed(Fed(x, z), y)
  {}

  lemma FedCancel(x: real, y: real, k: real)
    requires k != 0.0
    ensures Fed(x, k) == Fed(y, k) <==> x == y
  {
    assert Fed(x, k) - Fed(y, k) == Fed(x - y, k);
    FedZero(x - y, k);
  }

  /** Two differences of reciprocals, compared without division. */
  lemma SameDifference(s: real, a: real, b: real, c: real, d: real)
    requires s != 0.0 && a != 0.0 && b != 0.0 && c != 0.0 && d != 0.0
    ensures s / b - s / a == s / d - s / c <==> Fed(a - b, Fed(c, d)) == Fed(c - d, Fed(a, b))
  {
    var x, y, ab, cd := s / b - s / a, s / d - s / c, Fed(a, b), Fed(c, d);
    CrossOver(s, a, b);
    CrossOver(s, c, d);
    FedZero(a, b);
    FedZero(c, d);
    FedCancel(x, y, ab);
    FedCancel(Fed(x, ab), Fed(y, ab), cd);
    FedSwap(y, ab, cd);
    assert Fed(Fed(x, ab), cd) == Fed(s, Fed(a - b, cd)) && Fed(Fed(y, cd), ab) == Fed(s, Fed(c - d, ab));
    assert Fed(s, Fed(a - b, cd)) == Fed(Fed(a - b, cd), s) && Fed(s, Fed(c - d, ab)) == Fed(Fed(c - d, ab), s);
    FedCancel(Fed(a - b, cd), Fed(c - d, ab), s);
  }

  /** When the update changes anything, the target is not the old factor, and the integral term is what tells them
      apart. */
  lemma TermOf(oldFF: real, setpoint: real, iTerm: real)
    requires setpoint < 0.0 && oldFF != 0.0
    ensures var target := AbsorbingFF(oldFF, setpoint, iTerm);
            target != 0.0 && (target != oldFF ==> iTerm == setpoint / target - setpoint / oldFF)
  {
    var denom := setpoint / oldFF + iTerm;
    if Abs(denom) > 0.000001 {
      var target := setpoint / denom;
      assert target * denom == setpoint;
      DivOf(setpoint, target, denom);
    }
  }

  lemma TotalCharging(cfg: Config, s: State, setpoint: real)
    requires cfg.Valid() && setpoint < 0.0 && Read(s.ff, cfg.rated, cfg.step, setpoint) > 0.000001
    ensures Total(cfg, s, setpoint)
         == setpoint / Read(s.ff, cfg.rated, cfg.step, setpoint) + cfg.Contribution(s.integral)
  {
    hide Read, Config.Contribution;
  }

  /** Whether the read after the update, one over f plus gain, differs from one over f as the factors' inverses do. */
  predicate Balances(f: real, gain: real, oldFF: real, target: real) {
    Fed(-gain, Fed(oldFF, target)) == Fed(oldFF - target, Fed(f, f + gain))
  }

  /** When charging, at any setpoint: an update is bumpless exactly when the read's factor f, its gain, the bin's old
      factor and the target satisfy this equation. */
  lemma BumplessCharge(cfg: Config, s: State, setpoint: real, deadband: real)
    requires Learning(cfg, s, setpoint) && setpoint < 0.0
    requires var f := Read(s.ff, cfg.rated, cfg.step, setpoint);
             f > 0.000001 && f + ReadGain(cfg, s, setpoint) > 0.000001
    ensures var idx, target := BinIndex(cfg.rated, cfg.step, setpoint), TargetOf(cfg, s, setpoint);
            var r := Absorbed(cfg, s, setpoint, deadband);
            || (r.ff == s.ff && r.integral == s.integral)
            || (r.integral == 0.0 && r.ff == s.ff[idx := cfg.Bound(target)]
                && (Total(cfg, r, setpoint) == Total(cfg, s, setpoint) <==>
                    Balances(Read(s.ff, cfg.rated, cfg.step, setpoint), ReadGain(cfg, s, setpoint),
                             Bin(s.ff, idx), target)))
  {
    BinInTable(cfg, setpoint);
    hide BinIndex, AbsorbingFF, Read, Config.Contribution, ReadWeight, Fed, Total, Balances;
    var idx, f, gain := BinIndex(cfg.rated, cfg.step, setpoint), Read(s.ff, cfg.rated, cfg.step, setpoint),
                        ReadGain(cfg, s, setpoint);
    var oldFF, target := Bin(s.ff, idx), TargetOf(cfg, s, setpoint);
    var r := Absorbed(cfg, s, setpoint, deadband);
    if !(r.ff == s.ff && r.integral == s.integral) {
      AnyRead(cfg, s.ff, setpoint, cfg.Bound(target));
      TermOf(oldFF, setpoint, cfg.Contribution(s.integral));
      TotalCharging(cfg, s, setpoint);
      TotalCharging(cfg, r, setpoint);
      ContributionZero(cfg);
      BalancesIff(setpoint, f, gain, oldFF, target);
    }
  }

  lemma BalancesIff(s: real, f: real, gain: real, oldFF: real, target: real)
    requires s != 0.0 && f != 0.0 && f + gain != 0.0 && oldFF != 0.0 && target != 0.0
    ensures s / (f + gain) == s / f + (s / target - s / oldFF) <==> Balances(f, gain, oldFF, target)
  {
    SameDifference(s, f, f + gain, oldFF, target);
    assert f - (f + gain) == -gain;
    hide Fed;
  }

  // ---- The same in terms of the two bins read ----

  /** With f between the old factor and the other bin's, and the limits not acting. */
  lemma BalancesMix(w: real, oldFF: real, target: real, other: real)
    requires oldFF != target && w != 1.0
    ensures Balances(Fed(w, oldFF) + Fed(1.0 - w, other), Fed(w, target - oldFF), oldFF, target)
       <==> Fed(other, other) == Fed(w, Fed(oldFF - other, target - other))
  {
    var f, gain := Fed(w, oldFF) + Fed(1.0 - w, other), Fed(w, target - oldFF);
    MixIdentity(w, oldFF, target, other);
    assert Fed(-gain, Fed(oldFF, target)) == Fed(oldFF - target, Fed(w, Fed(oldFF, target)));
    hide Balances;
    FedZero(1.0 - w, Fed(w, Fed(oldFF - other, target - other)) - Fed(other, other));
    BalancesFactored(f, gain, oldFF, target, Fed(w, Fed(oldFF, target)));
  }

  lemma BalancesFactored(f: real, gain: real, oldFF: real, target: real, k: real)
    requires oldFF != target && Fed(-gain, Fed(oldFF, target)) == Fed(oldFF - target, k)
    ensures Balances(f, gain, oldFF, target) <==> k == Fed(f, f + gain)
  {
    FedSwap2(oldFF - target, k);
    FedSwap2(oldFF - target, Fed(f, f + gain));
    FedCancel(k, Fed(f, f + gain), oldFF - target);
  }

  lemma FedSwap2(x: real, y: real)
    ensures Fed(x, y) == Fed(y, x)
  {}

  /** f is w of the way from d to a, and f plus gain w of the way from d to t. */
  lemma MixIdentity(w: real, a: real, t: real, d: real)
    ensures var f := Fed(w, a) + Fed(1.0 - w, d);
            Fed(w, Fed(a, t)) - Fed(f, f + Fed(w, t - a))
            == Fed(1.0 - w, Fed(w, Fed(a - d, t - d)) - Fed(d, d))
  {
    var f, u, v := Fed(w, a) + Fed(1.0 - w, d), a - d, t - d;
    assert f == d + Fed(w, u) && f + Fed(w, t - a) == d + Fed(w, v);
    Expanded(d, u, v);
    Expanded(d, Fed(w, u), Fed(w, v));
    MixProducts(w, Fed(d, d), Fed(d, u), Fed(d, v), Fed(u, v));
    FedTwice(w, u, v);
    FedInner(d, w, u);
    FedInner(d, w, v);
  }

  lemma Expanded(d: real, u: real, v: real)
    ensures Fed(d + u, d + v) == Fed(d, d) + Fed(d, u) + Fed(d, v) + Fed(u, v)
  {}

  lemma FedInner(d: real, w: real, u: real)
    ensures Fed(d, Fed(w, u)) == Fed(w, Fed(d, u))
  {}

  lemma FedTwice(w: real, u: real, v: real)
    ensures Fed(Fed(w, u), Fed(w, v)) == Fed(w, Fed(w, Fed(u, v)))
  {
    assert (w * u) * (w * v) == w * (w * (u * v));
  }

  lemma MixProducts(w: real, dd: real, du: real, dv: real, uv: real)
    ensures Fed(w, dd + du + dv + uv) - (dd + Fed(w, du) + Fed(w, dv) + Fed(w, Fed(w, uv)))
         == Fed(1.0 - w, Fed(w, uv) - dd)
  {}

  /** Charging, with the limits not acting: an update is bumpless exactly when the read involves one bin, or its two
      factors and the target happen to satisfy this equation. */
  lemma BumplessChargeIff(cfg: Config, s: State, setpoint: real, deadband: real)
    requires Learning(cfg, s, setpoint) && setpoint < 0.0 && cfg.ffMin <= TargetOf(cfg, s, setpoint) <= cfg.ffMax
    requires var f := Read(s.ff, cfg.rated, cfg.step, setpoint);
             f > 0.000001 && f + ReadGain(cfg, s, setpoint) > 0.000001
    ensures var oldFF, target := Bin(s.ff, BinIndex(cfg.rated, cfg.step, setpoint)), TargetOf(cfg, s, setpoint);
            var r, other := Absorbed(cfg, s, setpoint, deadband), OtherBin(cfg, s.ff, setpoint);
            || (r.ff == s.ff && r.integral == s.integral)
            || (Total(cfg, r, setpoint) == Total(cfg, s, setpoint) <==>
                || ReadsOneBin(cfg, setpoint)
                || Fed(other, other) == Fed(Weight(cfg, setpoint), Fed(oldFF - other, target - other)))
  {
    BinInTable(cfg, setpoint);
    hide BinIndex, AbsorbingFF, Read, Config.Contribution, Fed, Total, Balances, ReadsOneBin, Weight, OtherBin;
    var idx, target := BinIndex(cfg.rated, cfg.step, setpoint), TargetOf(cfg, s, setpoint);
    var oldFF := Bin(s.ff, idx);
    var r := Absorbed(cfg, s, setpoint, deadband);
    if !(r.ff == s.ff && r.integral == s.integral) {
      BumplessCharge(cfg, s, setpoint, deadband);
      assert target != oldFF;
      if ReadsOneBin(cfg, setpoint) {
        OneBinRead(cfg, s.ff, setpoint);
        BalancesAlone(oldFF, target);
      } else {
        TwoBinRead(cfg, s.ff, setpoint, target);
        ReadMix(cfg, s.ff, setpoint);
        BalancesMix(Weight(cfg, setpoint), oldFF, target, OtherBin(cfg, s.ff, setpoint));
      }
    }
  }

  lemma BalancesAlone(oldFF: real, target: real)
    ensures Balances(oldFF, Fed(1.0, target - oldFF), oldFF, target)
  {
    assert Fed(1.0, target - oldFF) == target - oldFF;
    assert oldFF + (target - oldFF) == target;
  }

  /** The equation can hold between two bins: here the total stays -20. */
  lemma ChargingCoincidence(cfg: Config, s: State)
    requires cfg.Valid() && cfg.rated == 168.0 && cfg.step == 5 && cfg.ffMin == 0.5 && cfg.ffMax == 2.0
    requires cfg.integralMaxRatio == 1.0 && cfg.integralTime == Some(1.0) && s.integral == 1.0
    requires -2 in s.ff && s.ff[-2] == 1.4 && -3 in s.ff && s.ff[-3] == 0.6
    ensures !ReadsOneBin(cfg, -21.0)
    ensures Weight(cfg, -21.0) == 0.5 && OtherBin(cfg, s.ff, -21.0) == 0.6
    ensures Fed(0.6, 0.6) == Fed(0.5, Fed(1.4 - 0.6, 1.5 - 0.6))
    ensures var r := Absorbed(cfg, s, -21.0, 0.5);
            r.integral == 0.0 && r.ff == s.ff[-2 := 1.5] && Total(cfg, r, -21.0) == Total(cfg, s, -21.0) == -20.0
  {
    assert Position(168.0, 5, -21.0) == -2.5;
    assert BinIndex(168.0, 5, -21.0) == -2;
    assert AbsorbingFF(1.4, -21.0, 1.0) == 1.5;
    assert Read(s.ff, 168.0, 5, -21.0) == 1.0;
    assert Read(s.ff[-2 := 1.5], 168.0, 5, -21.0) == 1.05;
  }

  /** At full power a limit of 1.5 stops the update short, and the output drops from 155 to 150. */
  lemma ClampedLearningJumps(cfg: Config, s: State)
    requires cfg.Valid() && cfg.rated == 100.0 && cfg.step == 5 && cfg.ffMin == 0.8 && cfg.ffMax == 1.5
    requires cfg.integralMaxRatio == 1.0 && cfg.integralTime == Some(1.0) && s.integral == 10.0
    requires 20 in s.ff && s.ff[20] == 1.45
    ensures ReadsOneBin(cfg, 100.0)
    ensures var r := Absorbed(cfg, s, 100.0, 0.5);
            r.ff == s.ff[20 := 1.5] && Total(cfg, s, 100.0) == 155.0 && Total(cfg, r, 100.0) == 150.0
  {
    assert Position(100.0, 5, 100.0) == 20.0;
    assert BinIndex(100.0, 5, 100.0) == 20;
    assert AbsorbingFF(1.45, 100.0, 10.0) == 1.55;
  }
}
