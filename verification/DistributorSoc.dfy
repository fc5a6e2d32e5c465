/** The SOC-balancing shares in the quantities of the command: ratings, SOC readings and gain. */
module DistributorSoc {
  import opened Numeric
  import opened Distributor
  import opened DistributorLimits
  import opened DistributorLaws

  // ---- The average and the strengths ----

  function Readings(ds: seq<Snapshot>): seq<real> {
    seq(|ds|, i requires 0 <= i < |ds| => if ds[i].soc.Some? then ds[i].soc.value else 0.0)
  }

  function Flags(ds: seq<Snapshot>): seq<real> {
    seq(|ds|, i requires 0 <= i < |ds| => if ds[i].soc.Some? then 1.0 else 0.0)
  }

  ghost predicate SomeSoc(ds: seq<Snapshot>) {
    exists i :: 0 <= i < |ds| && ds[i].soc.Some?
  }

  /** The average of the SOCs there are. */
  ghost predicate IsAverage(ds: seq<Snapshot>, average: real) {
    SomeSoc(ds) && Weighed(average, Sum(Flags(ds))) == Sum(Readings(ds))
  }

  /** The percentage of its rating a device is to work with: a fuller one more when discharging, less when charging,
      and none below zero; one without a SOC counts as average. */
  function Percent(gain: real, discharging: bool, average: real, d: Snapshot): real {
    var away := if d.soc.Some? then Weighed(gain, d.soc.value - average) else 0.0;
    Max(if discharging then 100.0 + away else 100.0 - away, 0.0)
  }

  function Strengths(gain: real, discharging: bool, average: real, ds: seq<Snapshot>): (r: seq<real>)
    ensures |r| == |ds|
  {
    seq(|ds|, i requires 0 <= i < |ds| => Weighed(ds[i].rated, Percent(gain, discharging, average, ds[i])))
  }

  lemma {:induction false} KnownSums(ds: seq<Snapshot>)
    ensures Sum(KnownSocs(ds)) == Sum(Readings(ds)) && |KnownSocs(ds)| as real == Sum(Flags(ds))
    ensures KnownSocs(ds) != [] <==> SomeSoc(ds)
  {
    if ds != [] {
      var n := |ds| - 1;
      KnownSums(ds[..n]);
      assert Readings(ds)[..n] == Readings(ds[..n]) && Flags(ds)[..n] == Flags(ds[..n]);
      if ds[n].soc.Some? {
        SumAppend(KnownSocs(ds[..n]), ds[n].soc.value);
      } else {
        assert KnownSocs(ds) == KnownSocs(ds[..n]);
      }
      assert SomeSoc(ds) <==> SomeSoc(ds[..n]) || ds[n].soc.Some?;
    }
  }

  lemma AverageIs(ds: seq<Snapshot>, average: real)
    requires IsAverage(ds, average)
    ensures KnownSocs(ds) != [] && AverageSoc(ds) == average
  {
    KnownSums(ds);
    hide Sum, KnownSocs, Readings, Flags, SomeSoc;
    QuotientIs(Sum(KnownSocs(ds)), |KnownSocs(ds)| as real, average);
  }

  lemma QuotientIs(x: real, n: real, average: real)
    requires n > 0.0 && Weighed(average, n) == x
    ensures x / n == average
  {
    DivOf(x, n, average);
  }

  lemma AverageExists(ds: seq<Snapshot>)
    requires SomeSoc(ds)
    ensures KnownSocs(ds) != [] && IsAverage(ds, AverageSoc(ds))
  {
    KnownSums(ds);
    hide Sum, KnownSocs, Readings, Flags;
    assert AverageSoc(ds) * |KnownSocs(ds)| as real == Sum(KnownSocs(ds));
  }

  lemma FactorIs(gain: real, discharging: bool, soc: real, average: real)
    ensures var away := Weighed(gain, soc - average);
      100.0 * Max(Factor(gain, discharging, soc, average), 0.0)
        == Max(if discharging then 100.0 + away else 100.0 - away, 0.0)
  {
    assert 100.0 * (gain * ((soc - average) / 100.0)) == gain * (soc - average);
  }

  lemma StrengthIs(gain: real, discharging: bool, average: real, d: Snapshot)
    ensures 100.0 * SocWeight(gain, discharging, average, d)
         == Weighed(d.rated, Percent(gain, discharging, average, d))
  {
    FactorIs(gain, discharging, SocOr(d, average), average);
    hide Factor;
    var f := Max(Factor(gain, discharging, SocOr(d, average), average), 0.0);
    assert 100.0 * (f * d.rated) == d.rated * (100.0 * f);
  }

  lemma StrengthAt(gain: real, discharging: bool, average: real, ds: seq<Snapshot>, i: nat)
    requires KnownSocs(ds) != [] && AverageSoc(ds) == average && i < |ds|
    ensures Strengths(gain, discharging, average, ds)[i] == 100.0 * SocWeights(gain, discharging, ds)[i]
  {
    StrengthIs(gain, discharging, average, ds[i]);
    hide KnownSocs, AverageSoc, SocWeight, Percent, Weighed;
  }

  lemma {:induction false} SumHundredfold(w: seq<real>, s: seq<real>)
    requires |s| == |w| && forall i :: 0 <= i < |s| ==> s[i] == 100.0 * w[i]
    ensures Sum(s) == 100.0 * Sum(w)
  {
    if s != [] {
      SumHundredfold(w[..|w| - 1], s[..|s| - 1]);
    }
  }

  lemma StrengthsAre(gain: real, discharging: bool, average: real, ds: seq<Snapshot>)
    requires IsAverage(ds, average)
    ensures KnownSocs(ds) != []
    ensures var w, s := SocWeights(gain, discharging, ds), Strengths(gain, discharging, average, ds);
      Sum(s) == 100.0 * Sum(w) && forall i :: 0 <= i < |ds| ==> s[i] == 100.0 * w[i]
  {
    AverageIs(ds, average);
    hide IsAverage, KnownSocs, AverageSoc, SocWeights, Strengths, Sum;
    forall i | 0 <= i < |ds| {
      StrengthAt(gain, discharging, average, ds, i);
    }
    SumHundredfold(SocWeights(gain, discharging, ds), Strengths(gain, discharging, average, ds));
  }

  // ---- Every path, without limits ----

  ghost predicate AllEqual(axes: seq<Axis>) {
    forall i, j :: 0 <= i < |axes| && 0 <= j < |axes| ==> axes[i] == axes[j]
  }

  lemma ProductScaled(a: Axis, w: real, s: real)
    requires s == 100.0 * w
    ensures DistributorLaws.Product(a, s) == 100.0 * DistributorLaws.Product(a, w)
  {
    var e := Effective(a);
    assert e * (100.0 * w) == 100.0 * (e * w);
  }

  lemma ProportionScaled(axes: seq<Axis>, w: seq<real>, s: seq<real>)
    requires InProportion(axes, w) && |s| == |w| && forall i :: 0 <= i < |s| ==> s[i] == 100.0 * w[i]
    ensures InProportion(axes, s)
  {
    hide DistributorLaws.Product;
    forall i, j | 0 <= i < |axes| && 0 <= j < |axes|
      ensures DistributorLaws.Product(axes[i], s[j]) == DistributorLaws.Product(axes[j], s[i])
    {
      ProductScaled(axes[i], w[j], s[j]);
      ProductScaled(axes[j], w[i], s[i]);
    }
  }

  /** Where the weights decide: something is rated, some SOC is known, and some device is to work on the P axis. */
  ghost predicate Balanced(cfg: SocConfig, c: Command, ds: seq<Snapshot>, average: real) {
    && Sum(Ratings(ds)) > 0.0 && IsAverage(ds, average)
    && (c.p.Target? ==> Sum(Strengths(cfg.gain, c.p.v > 0.0, average, ds)) > 0.0)
  }

  lemma BalancedIff(cfg: SocConfig, c: Command, ds: seq<Snapshot>, average: real)
    requires IsAverage(ds, average)
    ensures SocPath(cfg, c, ds) <==> Balanced(cfg, c, ds, average)
  {
    AverageIs(ds, average);
    hide Ratings, Sum, KnownSocs, IsAverage, SocWeights, Strengths;
    if c.p.Target? {
      StrengthsAre(cfg.gain, c.p.v > 0.0, average, ds);
    }
  }

  /** On the weighted path P is shared out in proportion to the strengths, and Q to the ratings. */
  lemma SocProportion(cfg: SocConfig, c: Command, ds: seq<Snapshot>, average: real)
    requires Balanced(cfg, c, ds, average)
    ensures |SocShares(cfg, c, ds)| == |ds|
    ensures cfg.maxP.None? && c.p.Target? ==>
      InProportion(Ps(SocShares(cfg, c, ds)), Strengths(cfg.gain, c.p.v > 0.0, average, ds))
    ensures cfg.maxQ.None? ==> InProportion(Qs(SocShares(cfg, c, ds)), Ratings(ds))
  {
    BalancedIff(cfg, c, ds, average);
    hide Balanced, IsAverage, KnownSocs, Sum, Ratings, SocWeights, Weighted, InProportion, Paired, Strengths;
    if c.p.NoChange? && c.q.NoChange? {
      NothingInProportion(Qs(SocShares(cfg, c, ds)), Ratings(ds));
    } else {
      var rated := Weighted(c.q, Ratings(ds));
      WeightedInProportion(c.q, Ratings(ds));
      var qs := LimitedOrKept(c.q, rated, cfg.maxQ);
      if c.p.NoChange? {
        PairedAxes(seq(|ds|, i => NoChange), qs);
      } else {
        var d := c.p.v > 0.0;
        var weights := SocWeights(cfg.gain, d, ds);
        WeightedInProportion(c.p, weights);
        PairedAxes(LimitedOrKept(c.p, Weighted(c.p, weights), cfg.maxP), qs);
        StrengthsAre(cfg.gain, d, average, ds);
        ProportionScaled(Weighted(c.p, weights), weights, Strengths(cfg.gain, d, average, ds));
      }
    }
  }

  lemma NothingInProportion(axes: seq<Axis>, weights: seq<real>)
    requires SameKind(NoChange, axes) && |axes| == |weights|
    ensures InProportion(axes, weights)
  {}

  /** Everywhere else limits are not looked at: shares go by rating, or are equal when nothing is rated. */
  lemma Fallback(cfg: SocConfig, c: Command, ds: seq<Snapshot>)
    requires (c.p.Target? || c.q.Target?) && (Sum(Ratings(ds)) <= 0.0 || !SomeSoc(ds) ||
      (c.p.Target? && exists average :: IsAverage(ds, average) && !Balanced(cfg, c, ds, average)))
    ensures |SocShares(cfg, c, ds)| == |ds|
    ensures var r := SocShares(cfg, c, ds);
      if Sum(Ratings(ds)) <= 0.0 then AllEqual(Ps(r)) && AllEqual(Qs(r))
      else InProportion(Ps(r), Ratings(ds)) && InProportion(Qs(r), Ratings(ds))
  {
    KnownSums(ds);
    if average :| IsAverage(ds, average) && !Balanced(cfg, c, ds, average) {
      BalancedIff(cfg, c, ds, average);
    }
    if ds != [] { SocSplits(cfg, c, ds); }
    hide Balanced, IsAverage, KnownSocs, Sum, Ratings, SocWeights, Weighted, InProportion, Paired, Strengths;
    if Sum(Ratings(ds)) > 0.0 {
      ProportionalByRating(c, ds);
    }
  }

  // ---- With limits ----

  /** On the weighted path the limits act on the shares there would be without them, each on its axis. */
  lemma LimitsAfterwards(cfg: SocConfig, c: Command, ds: seq<Snapshot>, average: real)
    requires Balanced(cfg, c, ds, average)
    ensures var free := SocShares(cfg.(maxP := None, maxQ := None), c, ds);
      var r := SocShares(cfg, c, ds);
      && |r| == |free| == |ds|
      && (c.p.Target? && cfg.maxP.Some? ==> Values(Ps(r)) == Limited(Values(Ps(free)), cfg.maxP.value))
      && (c.q.Target? && cfg.maxQ.Some? ==> Values(Qs(r)) == Limited(Values(Qs(free)), cfg.maxQ.value))
      && (c.p.NoChange? || cfg.maxP.None? ==> Ps(r) == Ps(free))
      && (c.q.NoChange? || cfg.maxQ.None? ==> Qs(r) == Qs(free))
  {
    BalancedIff(cfg, c, ds, average);
    hide Balanced, IsAverage, KnownSocs, Sum, Ratings, SocWeights, Weighted, Paired, Limited, LimitedAxes;
    if c.p.Target? || c.q.Target? {
      var rated := Weighted(c.q, Ratings(ds));
      var qs := LimitedOrKept(c.q, rated, cfg.maxQ);
      if c.q.Target? && cfg.maxQ.Some? { LimitedValues(rated, cfg.maxQ.value); }
      if c.q.Target? { FreeAxes(rated); }
      if c.p.NoChange? {
        PairedAxes(seq(|ds|, i => NoChange), qs);
        PairedAxes(seq(|ds|, i => NoChange), rated);
      } else {
        var shares := Weighted(c.p, SocWeights(cfg.gain, c.p.v > 0.0, ds));
        FreeAxes(shares);
        if cfg.maxP.Some? { LimitedValues(shares, cfg.maxP.value); }
        PairedAxes(LimitedOrKept(c.p, shares, cfg.maxP), qs);
        PairedAxes(shares, rated);
      }
    }
  }

  lemma FreeAxes(axes: seq<Axis>)
    requires forall i :: 0 <= i < |axes| ==> axes[i].Target?
    ensures LimitedAxes(axes, None) == axes
  {}
}
