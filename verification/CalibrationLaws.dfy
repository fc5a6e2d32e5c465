/** What every calibration run records, and how long it takes. */
module CalibrationLaws {
  import opened Numeric
  import opened FFTable
  import opened CompensatorModel
  import opened CalibrationModel

  // ---- The bin sequence ----

  lemma {:induction false} UpElements(lo: int, hi: int)
    ensures |Up(lo, hi)| == if hi < lo then 0 else hi - lo + 1
    ensures forall k :: 0 <= k < |Up(lo, hi)| ==> Up(lo, hi)[k] == lo + k
    decreases hi - lo + 1
  {
    if lo <= hi { UpElements(lo, hi - 1); }
  }

  lemma {:induction false} DownElements(hi: int, lo: int)
    ensures |Down(hi, lo)| == if hi < lo then 0 else hi - lo + 1
    ensures forall k :: 0 <= k < |Down(hi, lo)| ==> Down(hi, lo)[k] == hi - k
    decreases hi - lo + 1
  {
    if lo <= hi { DownElements(hi, lo + 1); }
  }

  /** The visited bins: exactly the discharge bins up to MaxBin and the charge bins down to MinBin, each
      once, all of them bins of a table of the same width. */
  lemma BinsVisited(cfg: CalConfig)
    requires cfg.Valid()
    ensures var bins := BinSequence(cfg);
            && (forall j, k :: 0 <= j < k < |bins| ==> bins[j] != bins[k])
            && (forall b :: b in bins <==> (First(cfg) <= b <= MaxBin(cfg)) || (MinBin(cfg) <= b <= -1))
            && (forall b :: b in bins ==> InBins(b, BinCount(cfg.stepPct)))
  {
    var up, down := Up(First(cfg), MaxBin(cfg)), Down(-1, MinBin(cfg));
    UpElements(First(cfg), MaxBin(cfg));
    DownElements(-1, MinBin(cfg));
    forall b | First(cfg) <= b <= MaxBin(cfg) ensures b in up {
      assert up[b - First(cfg)] == b;
    }
    forall b | MinBin(cfg) <= b <= -1 ensures b in down {
      assert down[-1 - b] == b;
    }
  }

  predicate Within(cfg: CalConfig, bin: int) {
    cfg.minPct <= bin * cfg.stepPct <= cfg.maxPct
  }

  /** Between the first and the last visited bin of either side, percentages are between theirs. */
  lemma BinPercentages(cfg: CalConfig, b: int)
    requires cfg.Valid()
    ensures First(cfg) <= b <= MaxBin(cfg) ==> First(cfg) * cfg.stepPct <= b * cfg.stepPct <= cfg.maxPct
    ensures MinBin(cfg) <= b <= -1 ==> MinBin(cfg) * cfg.stepPct <= b * cfg.stepPct <= -cfg.stepPct
  {
    MaxBinReaches(cfg);
    hide MaxBin, MinBin, First;
    MulMonoInt(First(cfg), b, cfg.stepPct);
    MulMonoInt(b, MaxBin(cfg), cfg.stepPct);
    MulMonoInt(MinBin(cfg), b, cfg.stepPct);
    MulMonoInt(b, -1, cfg.stepPct);
  }

  lemma MaxBinReaches(cfg: CalConfig)
    requires cfg.Valid()
    ensures MaxBin(cfg) * cfg.stepPct <= cfg.maxPct
  {
    MulMonoInt(MaxBin(cfg), cfg.maxPct / cfg.stepPct, cfg.stepPct);
  }

  /** The configured range is not always respected: a positive lower limit does not skip the first
      discharge bins, a negative upper limit does not skip the first charge bins, and a lower limit that
      is not a multiple of the step is overshot by one bin. This is exactly when it is respected. */
  lemma RangeRespected(cfg: CalConfig)
    requires cfg.Valid()
    ensures (forall b :: b in BinSequence(cfg) ==> Within(cfg, b))
       <==> && (First(cfg) <= MaxBin(cfg) ==> cfg.minPct <= First(cfg) * cfg.stepPct)
            && (MinBin(cfg) <= -1 ==>
                  && -cfg.stepPct <= cfg.maxPct
                  && (cfg.minPct % cfg.stepPct == 0 || cfg.minPct / cfg.stepPct < -BinCount(cfg.stepPct)))
  {
    var first, last := First(cfg), MinBin(cfg);
    BinsVisited(cfg);
    MinBinReaches(cfg);
    hide BinSequence, MaxBin, MinBin, First, BinCount;
    forall b | b in BinSequence(cfg)
      ensures first <= b <= MaxBin(cfg) ==> first * cfg.stepPct <= b * cfg.stepPct <= cfg.maxPct
      ensures last <= b <= -1 ==> last * cfg.stepPct <= b * cfg.stepPct <= -cfg.stepPct
    {
      BinPercentages(cfg, b);
    }
    if first <= MaxBin(cfg) { assert first in BinSequence(cfg); }
    if last <= -1 {
      assert last in BinSequence(cfg) && -1 in BinSequence(cfg);
      assert -1 * cfg.stepPct == -cfg.stepPct;
    }
  }

  /** Asked for 20 to 100 percent in steps of 5, calibration starts at 5 percent, and visits no charge bin. */
  lemma LowerLimitIgnored(cfg: CalConfig)
    requires cfg.stepPct == 5 && cfg.minPct == 20 && cfg.maxPct == 100 && cfg.skipZero && cfg.Valid()
    ensures 1 in BinSequence(cfg) && !Within(cfg, 1)
    ensures forall b :: b in BinSequence(cfg) ==> 1 <= b <= 20
  {
    BinsVisited(cfg);
  }

  lemma MinBinReaches(cfg: CalConfig)
    requires cfg.Valid()
    ensures cfg.minPct <= MinBin(cfg) * cfg.stepPct
       <==> cfg.minPct % cfg.stepPct == 0 || cfg.minPct / cfg.stepPct < -BinCount(cfg.stepPct)
  {
    var q, s, n := cfg.minPct / cfg.stepPct, cfg.stepPct, BinCount(cfg.stepPct);
    assert cfg.minPct == q * s + cfg.minPct % s;
    MulMonoInt(q + 1, -n, s);
  }

  // ---- What is recorded ----

  /** A ratio that measurements within the threshold can produce. */
  ghost predicate InBand(threshold: real, ratio: real)
    requires 0.0 < threshold < 1.0
  {
    1.0 / (1.0 + threshold) < ratio < 1.0 / (1.0 - threshold)
  }

  ghost predicate Plausible(threshold: real, recorded: real)
    requires 0.0 < threshold < 1.0
  {
    exists ratio :: InBand(threshold, ratio) && recorded == Clamp(ratio, 0.8, 1.5)
  }

  /** n readings with this sum are off by less than b each, taken together. */
  predicate Near(setpoint: real, sum: real, n: nat, b: real) {
    if n == 0 then sum == 0.0 else Abs(n as real * setpoint - sum) < b * n as real
  }

  lemma NearGrows(setpoint: real, sum: real, n: nat, m: real, b: real)
    requires Near(setpoint, sum, n, b) && Abs(setpoint - m) < b
    ensures Near(setpoint, sum + m, n + 1, b)
  {
    var k := n as real;
    assert (n + 1) as real == k + 1.0;
    assert (k + 1.0) * setpoint == k * setpoint + setpoint;
    assert b * (k + 1.0) == b * k + b;
    if n == 0 {
      assert k * setpoint == 0.0 && b * k == 0.0;
    }
  }

  lemma SteadyMeans(cfg: CalConfig, setpoint: real, m: real)
    requires Abs(setpoint) > 0.000001 && IsSteady(cfg, setpoint, m)
    ensures Abs(setpoint - m) < cfg.threshold * Abs(setpoint)
  {
    var e := setpoint - m;
    var q := e / setpoint;
    assert q * setpoint == e;
    AbsTimes(q, setpoint);
    MulStrict(Abs(q), cfg.threshold, Abs(setpoint));
  }

  lemma AbsTimes(x: real, y: real)
    ensures Abs(x * y) == Abs(x) * Abs(y)
  {}

  /** How far a steady reading can be off. */
  function Slack(cfg: CalConfig, setpoint: real): real {
    if Abs(setpoint) > 0.000001 then cfg.threshold * Abs(setpoint) else cfg.threshold
  }

  lemma SteadyIsClose(cfg: CalConfig, setpoint: real, m: real)
    requires IsSteady(cfg, setpoint, m)
    ensures Abs(setpoint - m) < Slack(cfg, setpoint)
  {
    if Abs(setpoint) > 0.000001 {
      SteadyMeans(cfg, setpoint, m);
    }
  }

  /** The running sum stays within the threshold of count times the setpoint. */
  predicate SumClose(cfg: CalConfig, setpoint: real, sum: real, count: nat) {
    Near(setpoint, sum, count, Slack(cfg, setpoint))
  }

  lemma SumGrows(cfg: CalConfig, setpoint: real, sum: real, count: nat, m: real)
    requires SumClose(cfg, setpoint, sum, count) && IsSteady(cfg, setpoint, m)
    ensures SumClose(cfg, setpoint, sum + m, count + 1)
  {
    hide IsSteady, Near, Slack;
    SteadyIsClose(cfg, setpoint, m);
    NearGrows(setpoint, sum, count, m, Slack(cfg, setpoint));
  }

  /** A nonzero bin's recorded factor comes from a ratio inside the band the threshold allows. */
  lemma RecordedPlausible(cfg: CalConfig, setpoint: real, sum: real, count: nat)
    requires 0.0 < cfg.threshold < 1.0 && Abs(setpoint) > 0.000001 && 0 < count
    requires SumClose(cfg, setpoint, sum, count)
    ensures Plausible(cfg.threshold, Recorded(setpoint, sum / count as real))
  {
    NearAverage(setpoint, sum, count, Slack(cfg, setpoint));
    RecordedFrom(cfg.threshold, setpoint, sum / count as real);
  }

  lemma RecordedFrom(t: real, setpoint: real, average: real)
    requires 0.0 < t < 1.0 && setpoint != 0.0 && Abs(setpoint - average) < t * Abs(setpoint)
    ensures Plausible(t, Recorded(setpoint, average))
  {
    RatioInBand(t, setpoint, average);
    RatioInBand(t, 1.0, 1.0);
    hide InBand;
    assert InBand(t, Ratio(setpoint, average));
  }

  lemma AverageClose(setpoint: real, sum: real, n: real, b: real)
    requires n > 0.0 && Abs(n * setpoint - sum) < b * n
    ensures Abs(setpoint - sum / n) < b
  {
    var a := sum / n;
    assert n * setpoint - sum == (setpoint - a) * n;
    AbsTimes(setpoint - a, n);
    MulMono(b, Abs(setpoint - a), n);
  }

  lemma NearOne(t: real, setpoint: real, average: real)
    requires setpoint != 0.0 && Abs(setpoint - average) < t * Abs(setpoint)
    ensures Abs(1.0 - average / setpoint) < t
    ensures average == 0.0 ==> average / setpoint == 0.0
  {
    var r := average / setpoint;
    assert (1.0 - r) * setpoint == setpoint - average;
    AbsTimes(1.0 - r, setpoint);
    MulMono(t, Abs(1.0 - r), Abs(setpoint));
  }

  lemma Inverted(x: real, y: real)
    requires x != 0.0 && y != 0.0
    ensures y / x != 0.0 && x / y == 1.0 / (y / x)
  {
    var r := y / x;
    assert r * x == y;
    DivOf(x, y, 1.0 / r);
  }

  lemma RatioInBand(t: real, setpoint: real, average: real)
    requires 0.0 < t < 1.0 && setpoint != 0.0 && Abs(setpoint - average) < t * Abs(setpoint)
    ensures average != 0.0 && InBand(t, setpoint / average)
  {
    NearOne(t, setpoint, average);
    Inverted(setpoint, average);
    BandOf(t, average / setpoint);
  }

  lemma BandOf(t: real, r: real)
    requires 0.0 < t < 1.0 && Abs(1.0 - r) < t
    ensures 0.0 < r && InBand(t, 1.0 / r)
  {
    Reciprocal(1.0 - t, r);
    Reciprocal(r, 1.0 + t);
  }

  lemma Reciprocal(x: real, y: real)
    requires 0.0 < x < y
    ensures 1.0 / y < 1.0 / x
  {
    var p, q := 1.0 / x, 1.0 / y;
    assert p * x == 1.0 && q * y == 1.0;
    MulMono(p, q, x);
    MulStrict(x, y, q);
  }

  /** The zero bin, when it is not skipped, is recorded as 1.0 only if its average is within 1e-6 of zero;
      any other steady average records 0.8. */
  lemma ZeroBinRecorded(average: real)
    ensures Recorded(0.0, average) == if Abs(average) > 0.000001 then 0.8 else 1.0
  {
    if average != 0.0 {
      assert 0.0 / average == 0.0;
    }
  }

  // ---- Which setpoints record plausible factors only ----

  /** The readings a bin is recorded from: as many in a row as the configuration asks for. */
  ghost predicate AllReadSteady(cfg: CalConfig, setpoint: real, ms: seq<real>) {
    |ms| == cfg.steadyCycles && forall i :: 0 <= i < |ms| ==> IsSteady(cfg, setpoint, ms[i])
  }

  /** Whatever steady readings a bin gets, the factor recorded from their average is plausible. */
  ghost predicate RecordsPlausibly(cfg: CalConfig, setpoint: real)
    requires cfg.Valid() && 0.0 < cfg.threshold < 1.0
  {
    forall ms :: AllReadSteady(cfg, setpoint, ms) ==> Plausible(cfg.threshold, Recorded(setpoint, Average(ms)))
  }

  function Average(ms: seq<real>): real
    requires ms != []
  {
    Sum(ms) / |ms| as real
  }

  lemma {:induction false} SteadySum(cfg: CalConfig, setpoint: real, ms: seq<real>)
    requires forall i :: 0 <= i < |ms| ==> IsSteady(cfg, setpoint, ms[i])
    ensures SumClose(cfg, setpoint, Sum(ms), |ms|)
  {
    hide IsSteady;
    if ms != [] {
      SteadySum(cfg, setpoint, ms[..|ms| - 1]);
      SumGrows(cfg, setpoint, Sum(ms[..|ms| - 1]), |ms| - 1, ms[|ms| - 1]);
    }
  }

  lemma SteadyAverage(cfg: CalConfig, setpoint: real, ms: seq<real>)
    requires cfg.Valid() && AllReadSteady(cfg, setpoint, ms)
    ensures Abs(setpoint - Average(ms)) < Slack(cfg, setpoint)
  {
    SteadySum(cfg, setpoint, ms);
    hide Slack, Sum, IsSteady;
    NearAverage(setpoint, Sum(ms), |ms|, Slack(cfg, setpoint));
  }

  lemma NearAverage(setpoint: real, sum: real, n: nat, b: real)
    requires 0 < n && Near(setpoint, sum, n, b)
    ensures Abs(setpoint - sum / n as real) < b
  {
    AverageClose(setpoint, sum, n as real, b);
  }

  lemma OneIsPlausible(t: real)
    requires 0.0 < t < 1.0
    ensures Plausible(t, Clamp(1.0, 0.8, 1.5))
  {
    Reciprocal(1.0 - t, 1.0);
    Reciprocal(1.0, 1.0 + t);
    assert InBand(t, 1.0);
  }

  /** A tiny setpoint over a larger average gives a ratio below one. */
  lemma TinyRatio(setpoint: real, average: real)
    requires Abs(setpoint) <= 0.000001 < Abs(average)
    ensures Abs(setpoint / average) < 1.0
  {
    var r := setpoint / average;
    assert r * average == setpoint;
    AbsTimes(r, average);
    MulMono(1.0, Abs(r), Abs(average));
  }

  lemma WideIsPlausible(t: real, rec: real)
    requires 0.25 < t < 1.0 && 0.8 <= rec < 1.0
    ensures Plausible(t, rec)
  {
    Reciprocal(1.0 - t, 1.0);
    Reciprocal(1.25, 1.0 + t);
    assert 1.0 / 1.25 == 0.8;
    assert InBand(t, rec) && rec == Clamp(rec, 0.8, 1.5);
  }

  lemma BelowBandImplausible(t: real, ratio: real)
    requires 0.0 < t <= 0.25 && ratio < 1.0 / (1.0 + t)
    ensures !Plausible(t, Clamp(ratio, 0.8, 1.5))
  {
    Reciprocal(1.0 + t, 1.26);
    var low := 1.0 / (1.0 + t);
    assert low * (1.0 + t) == 1.0;
    AtLeast(low, t);
  }

  lemma AtLeast(low: real, t: real)
    requires 0.0 < t <= 0.25 && low * (1.0 + t) == 1.0
    ensures 0.8 <= low <= 1.0
  {
    MulMono(1.0 + t, 1.25, low);
  }

  /** An average a steady run can give that shows a ratio below the band. */
  function Outlier(t: real, size: real): real {
    (Max(0.000001, size * (1.0 + t)) + size + t) / 2.0
  }

  lemma OutlierBounds(t: real, size: real)
    requires 0.0 < t < 1.0 && 0.0 < size <= 0.000001 && size + t > 0.000001
    ensures var a := Outlier(t, size);
            0.000001 < a && size * (1.0 + t) < a < size + t && size <= a && size / a < 1.0 / (1.0 + t)
  {
    var a := Outlier(t, size);
    assert size * t < t && 0.0 < size * t;
    assert size * (1.0 + t) == size + size * t;
    BelowInverse(size, 1.0 + t, a);
  }

  lemma BelowInverse(x: real, k: real, a: real)
    requires 0.0 < k && 0.0 < a && x * k < a
    ensures x / a < 1.0 / k
  {
    var q, r := x / a, 1.0 / k;
    assert q * a == x && r * k == 1.0;
    if r <= q {
      MulMono(r, q, a * k);
      assert r * (a * k) == a && q * (a * k) == x * k;
    }
  }

  lemma TinyEscapes(cfg: CalConfig, setpoint: real)
    requires cfg.Valid() && 0.0 < cfg.threshold <= 0.25 && setpoint != 0.0
    requires Abs(setpoint) <= 0.000001 < Abs(setpoint) + cfg.threshold
    ensures !RecordsPlausibly(cfg, setpoint)
  {
    var t, size := cfg.threshold, Abs(setpoint);
    OutlierBounds(t, size);
    hide Outlier, Plausible;
    var a := if setpoint > 0.0 then Outlier(t, size) else -Outlier(t, size);
    SameRatio(setpoint, a);
    BelowBandImplausible(t, setpoint / a);
    OutlierSteady(cfg, setpoint, a);
    hide IsSteady, Clamp;
    var ms := seq(cfg.steadyCycles, i => a);
    AverageOfEqual(ms, a);
    assert AllReadSteady(cfg, setpoint, ms);
  }

  lemma OutlierSteady(cfg: CalConfig, setpoint: real, a: real)
    requires Abs(setpoint) <= 0.000001 && Abs(setpoint - a) < cfg.threshold
    ensures IsSteady(cfg, setpoint, a)
  {}

  lemma AverageOfEqual(ms: seq<real>, a: real)
    requires ms != [] && forall i :: 0 <= i < |ms| ==> ms[i] == a
    ensures Average(ms) == a
  {
    SumConst(ms, a);
    DivOf(Times(|ms|, a), |ms| as real, a);
  }

  lemma SameRatio(x: real, a: real)
    requires a != 0.0 && (x > 0.0 <==> a > 0.0)
    ensures x / a == Abs(x) / Abs(a)
  {}

  /** A nonzero bin can only record plausible factors exactly when its setpoint is large enough for the relative test,
      or no steady average is, or the clamp at 0.8 hides the difference. */
  lemma RecordsPlausiblyIff(cfg: CalConfig, setpoint: real)
    requires cfg.Valid() && 0.0 < cfg.threshold < 1.0 && setpoint != 0.0
    ensures RecordsPlausibly(cfg, setpoint) <==>
      Abs(setpoint) > 0.000001 || Abs(setpoint) + cfg.threshold <= 0.000001 || cfg.threshold > 0.25
  {
    if Abs(setpoint) > 0.000001 || Abs(setpoint) + cfg.threshold <= 0.000001 || cfg.threshold > 0.25 {
      forall ms | AllReadSteady(cfg, setpoint, ms)
        ensures Plausible(cfg.threshold, Recorded(setpoint, Average(ms)))
      {
        SteadyAverage(cfg, setpoint, ms);
        CloseIsPlausible(cfg, setpoint, Average(ms));
      }
    } else {
      TinyEscapes(cfg, setpoint);
    }
  }

  lemma CloseIsPlausible(cfg: CalConfig, setpoint: real, average: real)
    requires 0.0 < cfg.threshold < 1.0 && setpoint != 0.0 && Abs(setpoint - average) < Slack(cfg, setpoint)
    requires Abs(setpoint) > 0.000001 || Abs(setpoint) + cfg.threshold <= 0.000001 || cfg.threshold > 0.25
    ensures Plausible(cfg.threshold, Recorded(setpoint, average))
  {
    OneIsPlausible(cfg.threshold);
    hide Plausible;
    if Abs(setpoint) > 0.000001 {
      RecordedFrom(cfg.threshold, setpoint, average);
    } else if Abs(average) > 0.000001 {
      TinyRatio(setpoint, average);
      WideIsPlausible(cfg.threshold, Recorded(setpoint, average));
    }
  }

  // ---- Runs ----

  /** The step's setpoint is large enough for the relative test: true whenever rated * step% > 1e-6. */
  predicate Resolvable(cfg: CalConfig, rated: real) {
    && cfg.Valid() && 0.0 < cfg.threshold < 1.0
    && 0.0 < rated && 0.000001 < rated * cfg.stepPct as real / 100.0
  }

  lemma SetpointLarge(cfg: CalConfig, rated: real, bin: int)
    requires Resolvable(cfg, rated) && bin != 0
    ensures Abs(Setpoint(cfg, rated, bin)) > 0.000001
  {
    var unit := rated * cfg.stepPct as real / 100.0;
    assert Setpoint(cfg, rated, bin) == bin as real * unit;
    AbsTimes(bin as real, unit);
    MulMono(1.0, Abs(bin as real), unit);
  }

  ghost predicate Inv(cfg: CalConfig, rated: real, s: Cal)
    requires Resolvable(cfg, rated)
  {
    && Consistent(cfg, s) && s.phase != Idle
    && s.bins == BinSequence(cfg) && s.index <= |s.bins|
    && s.settle <= cfg.Settle() && s.steady < cfg.steadyCycles
    && (s.settle > 0 ==> s.steady == 0)
    && (s.phase == Done <==> s.index == |s.bins| && s.bins != [])
    && s.results.Keys == (set k | 0 <= k < s.index :: s.bins[k])
    && (forall k :: 0 <= k < s.index && s.bins[k] != 0 ==> Plausible(cfg.threshold, s.results[s.bins[k]]))
    && (s.index < |s.bins| ==> SumClose(cfg, Setpoint(cfg, rated, s.bins[s.index]), s.sum, s.count))
  }

  lemma ActivatedInv(cfg: CalConfig, rated: real)
    requires Resolvable(cfg, rated)
    ensures Inv(cfg, rated, Activated(cfg))
  {}

  lemma AdvancedInv(cfg: CalConfig, rated: real, s: Cal)
    requires Resolvable(cfg, rated) && Consistent(cfg, s) && s.phase == Stepping
    requires s.bins == BinSequence(cfg) && s.index < |s.bins| && 0 < s.count
    requires s.results.Keys == (set k | 0 <= k < s.index :: s.bins[k])
    requires forall k :: 0 <= k < s.index && s.bins[k] != 0 ==> Plausible(cfg.threshold, s.results[s.bins[k]])
    requires SumClose(cfg, Setpoint(cfg, rated, s.bins[s.index]), s.sum, s.count)
    ensures Inv(cfg, rated, Advanced(cfg, s, Setpoint(cfg, rated, s.bins[s.index])))
  {
    hide Setpoint, Recorded, Plausible, Slack;
    BinsVisited(cfg);
    hide BinSequence;
    var setpoint := Setpoint(cfg, rated, s.bins[s.index]);
    if s.bins[s.index] != 0 {
      SetpointLarge(cfg, rated, s.bins[s.index]);
      RecordedPlausible(cfg, setpoint, s.sum, s.count);
    }
    var r := Advanced(cfg, s, setpoint);
    assert r.results.Keys == (set k | 0 <= k < r.index :: r.bins[k]) by {
      assert s.bins[s.index] == r.bins[s.index];
    }
  }

  lemma ExecutedInv(cfg: CalConfig, rated: real, s: Cal, measurement: Option<real>)
    requires Resolvable(cfg, rated) && Inv(cfg, rated, s)
    ensures Inv(cfg, rated, Executed(cfg, s, rated, measurement))
  {
    hide Setpoint, IsSteady, Recorded, Plausible, Advanced, Slack;
    if Live(s, rated) && measurement.Some? && s.settle <= 0 {
      var setpoint := Setpoint(cfg, rated, s.bins[s.index]);
      var steady := IsSteady(cfg, setpoint, measurement.value);
      if steady {
        SumGrows(cfg, setpoint, s.sum, s.count, measurement.value);
      }
      var t := Counted(s, steady, measurement.value);
      if t.steady >= cfg.steadyCycles {
        AdvancedInv(cfg, rated, t);
      }
    }
  }

  function Run(cfg: CalConfig, rated: real, ms: seq<Option<real>>): (s: Cal)
    requires cfg.Valid()
    ensures Consistent(cfg, s)
    decreases |ms|
  {
    if ms == [] then Activated(cfg) else Executed(cfg, Run(cfg, rated, ms[..|ms| - 1]), rated, ms[|ms| - 1])
  }

  /** On every run: the recorded bins are exactly the first `index` of the sequence, and every nonzero
      one holds a plausible factor. */
  lemma {:induction false} RunRecords(cfg: CalConfig, rated: real, ms: seq<Option<real>>)
    requires Resolvable(cfg, rated)
    ensures Inv(cfg, rated, Run(cfg, rated, ms))
    decreases |ms|
  {
    hide Inv, Executed;
    if ms == [] {
      ActivatedInv(cfg, rated);
    } else {
      RunRecords(cfg, rated, ms[..|ms| - 1]);
      ExecutedInv(cfg, rated, Run(cfg, rated, ms[..|ms| - 1]), ms[|ms| - 1]);
    }
  }

  /** Finishing changes exactly the visited bins of a table of the same width, and each nonzero one gets
      a plausible factor within the compensator's limits. */
  lemma FinishWrites(cfg: CalConfig, rated: real, ms: seq<Option<real>>, comp: Config, table: Table)
    requires Resolvable(cfg, rated) && comp.step == cfg.stepPct && Full(table, BinCount(cfg.stepPct))
    requires Run(cfg, rated, ms).phase == Done
    ensures var w := Written(comp, table, Run(cfg, rated, ms).results);
            && w.Keys == table.Keys
            && (forall b :: b in table && b !in BinSequence(cfg) ==> w[b] == table[b])
            && (forall b :: b in BinSequence(cfg) && b != 0 ==>
                  && b in w
                  && exists f :: Plausible(cfg.threshold, f) && w[b] == comp.Bound(f))
  {
    RunRecords(cfg, rated, ms);
    BinsVisited(cfg);
    hide Run, BinSequence, Plausible;
    var s := Run(cfg, rated, ms);
    var w := Written(comp, table, s.results);
    forall b | b in BinSequence(cfg) && b != 0
      ensures b in w && exists f :: Plausible(cfg.threshold, f) && w[b] == comp.Bound(f)
    {
      var k :| 0 <= k < |s.bins| && s.bins[k] == b;
      PlausiblePositive(cfg.threshold, s.results[b]);
      assert Plausible(cfg.threshold, s.results[b]) && w[b] == comp.Bound(s.results[b]);
    }
  }

  lemma PlausiblePositive(threshold: real, f: real)
    requires 0.0 < threshold < 1.0 && Plausible(threshold, f)
    ensures 0.8 <= f <= 1.5
  {}

  // ---- How long it takes ----

  function Measured(ms: seq<Option<real>>): nat
    decreases |ms|
  {
    if ms == [] then 0 else Measured(ms[..|ms| - 1]) + if ms[|ms| - 1].Some? then 1 else 0
  }

  function PerBin(cfg: CalConfig): nat
    requires cfg.Valid()
  {
    cfg.Settle() + cfg.steadyCycles
  }

  /** Calls already spent, counted as if every one had been useful. */
  function Progress(cfg: CalConfig, s: Cal): int
    requires cfg.Valid()
  {
    s.index * PerBin(cfg)
      + (if s.phase == Done then 0 else cfg.Settle() - (if s.settle < 0 then 0 else s.settle) + s.steady)
  }

  /** The measurement, if the call judges it, is within the threshold. */
  predicate SteadyCall(cfg: CalConfig, s: Cal, rated: real, m: Option<real>) {
    Live(s, rated) && m.Some? && s.settle <= 0 ==> IsSteady(cfg, Setpoint(cfg, rated, s.bins[s.index]), m.value)
  }

  lemma CallProgress(cfg: CalConfig, rated: real, s: Cal, m: Option<real>)
    requires Resolvable(cfg, rated) && Inv(cfg, rated, s) && s.bins != []
    ensures var t := Executed(cfg, s, rated, m);
            && Progress(cfg, t) <= Progress(cfg, s) + (if m.Some? then 1 else 0)
            && (s.phase != Done && SteadyCall(cfg, s, rated, m) ==>
                  Progress(cfg, t) == Progress(cfg, s) + (if m.Some? then 1 else 0))
  {
    hide Setpoint, IsSteady, Recorded, Plausible, SumClose;
    var p := PerBin(cfg);
    assert (s.index + 1) * p == s.index * p + p;
  }

  ghost predicate AllSteady(cfg: CalConfig, rated: real, ms: seq<Option<real>>)
    requires cfg.Valid()
  {
    forall k :: 0 <= k < |ms| ==> SteadyCall(cfg, Run(cfg, rated, ms[..k]), rated, ms[k])
  }

  /** No run finishes before bins * (settle + steady) measured calls, and a run whose judged measurements
      are all steady finishes exactly then. */
  lemma {:induction false} Duration(cfg: CalConfig, rated: real, ms: seq<Option<real>>)
    requires Resolvable(cfg, rated) && BinSequence(cfg) != []
    ensures var s, total := Run(cfg, rated, ms), |BinSequence(cfg)| * PerBin(cfg);
            && Inv(cfg, rated, s)
            && Progress(cfg, s) <= Measured(ms)
            && (s.phase == Done ==> Measured(ms) >= total)
            && (AllSteady(cfg, rated, ms) ==>
                  && (s.phase != Done ==> Progress(cfg, s) == Measured(ms))
                  && (s.phase == Done <==> Measured(ms) >= total))
    decreases |ms|
  {
    RunRecords(cfg, rated, ms);
    hide Executed, SteadyCall, BinSequence, SumClose, Plausible;
    if ms != [] {
      var init := ms[..|ms| - 1];
      Duration(cfg, rated, init);
      CallProgress(cfg, rated, Run(cfg, rated, init), ms[|ms| - 1]);
      assert forall k :: 0 <= k < |init| ==> init[..k] == ms[..k];
    }
    ProgressBelow(cfg, rated, Run(cfg, rated, ms));
  }

  lemma ProgressBelow(cfg: CalConfig, rated: real, s: Cal)
    requires Resolvable(cfg, rated) && Inv(cfg, rated, s) && s.bins != []
    ensures s.phase == Done ==> Progress(cfg, s) == |s.bins| * PerBin(cfg)
    ensures s.phase != Done ==> Progress(cfg, s) < |s.bins| * PerBin(cfg)
  {
    var rest := cfg.Settle() - (if s.settle < 0 then 0 else s.settle) + s.steady;
    assert s.phase != Done ==> s.index < |s.bins| && rest < PerBin(cfg);
    hide Inv, PerBin, BinSequence;
    if s.phase != Done {
      LastPartBelow(s.index, |s.bins|, PerBin(cfg), rest);
    }
  }

  lemma LastPartBelow(i: int, n: int, p: int, rest: int)
    requires i < n && rest < p && 0 <= p
    ensures i * p + rest < n * p
  {
    MulMonoInt(i + 1, n, p);
    assert (i + 1) * p == i * p + p;
  }
}
