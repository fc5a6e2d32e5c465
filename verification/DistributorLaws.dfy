/** What splitting promises: nothing is lost without limits, NO_CHANGE stays NO_CHANGE, and a fuller
    battery never works less on discharge nor more on charge. */
module DistributorLaws {
  import opened Numeric
  import opened Distributor
  import opened DistributorLimits
  import opened DistributorOrder

  function Values(axes: seq<Axis>): seq<real> {
    seq(|axes|, i requires 0 <= i < |axes| => Effective(axes[i]))
  }

  function Ps(r: seq<Command>): seq<Axis> {
    seq(|r|, i requires 0 <= i < |r| => r[i].p)
  }

  function Qs(r: seq<Command>): seq<Axis> {
    seq(|r|, i requires 0 <= i < |r| => r[i].q)
  }

  /** Each device has the axis exactly when the command has it, and the parts add up. */
  ghost predicate Splits(a: Axis, axes: seq<Axis>) {
    SameKind(a, axes) && Sum(Values(axes)) == Effective(a)
  }

  lemma PairedAxes(ps: seq<Axis>, qs: seq<Axis>)
    requires |ps| == |qs|
    ensures |Paired(ps, qs)| == |ps|
    ensures Ps(Paired(ps, qs)) == ps && Qs(Paired(ps, qs)) == qs
  {}

  // ---- Conservation ----

  lemma EqualSplits(c: Command, n: nat)
    requires n > 0
    ensures |EqualShares(c, n)| == n
    ensures Splits(c.p, Ps(EqualShares(c, n))) && Splits(c.q, Qs(EqualShares(c, n)))
  {
    SumConst(Values(Ps(EqualShares(c, n))), Effective(c.p) / n as real);
    SumConst(Values(Qs(EqualShares(c, n))), Effective(c.q) / n as real);
  }

  lemma PortionScaled(a: Axis, w: real, total: real, k: real)
    requires total != 0.0 && a.Target? && k == a.v / total
    ensures Effective(Portion(a, w, total)) == k * w
  {
    assert a.v * (w / total) == (a.v / total) * w;
  }

  lemma WeightedValues(a: Axis, weights: seq<real>, k: real)
    requires Sum(weights) != 0.0 && a.Target? && k == a.v / Sum(weights)
    ensures var values := Values(Weighted(a, weights));
      && |values| == |weights|
      && forall i :: 0 <= i < |values| ==> values[i] == k * weights[i]
  {
    hide Portion, Sum;
    var values := Values(Weighted(a, weights));
    forall i | 0 <= i < |weights| ensures values[i] == k * weights[i] {
      PortionScaled(a, weights[i], Sum(weights), k);
    }
  }

  lemma WeightedSplits(a: Axis, weights: seq<real>)
    requires Sum(weights) != 0.0
    ensures Splits(a, Weighted(a, weights))
  {
    hide Sum;
    if a.NoChange? {
      NothingSplits(Weighted(a, weights));
    } else {
      var k := a.v / Sum(weights);
      WeightedValues(a, weights, k);
      SumScale(weights, k, Values(Weighted(a, weights)));
      DivBack(a.v, Sum(weights), k);
    }
  }

  lemma DivBack(x: real, y: real, k: real)
    requires y != 0.0 && k == x / y
    ensures k * y == x
  {}

  lemma ProportionalSplits(c: Command, ds: seq<Snapshot>)
    requires ds != []
    ensures |ProportionalShares(c, ds)| == |ds|
    ensures Splits(c.p, Ps(ProportionalShares(c, ds))) && Splits(c.q, Qs(ProportionalShares(c, ds)))
  {
    if Sum(Ratings(ds)) <= 0.0 {
      EqualSplits(c, |ds|);
    } else {
      WeightedSplits(c.p, Ratings(ds));
      WeightedSplits(c.q, Ratings(ds));
      PairedAxes(Weighted(c.p, Ratings(ds)), Weighted(c.q, Ratings(ds)));
    }
  }

  lemma SplitsKind(c: Command, r: seq<Command>)
    requires Splits(c.p, Ps(r)) && Splits(c.q, Qs(r))
    ensures SameKind(c.p, Ps(r)) && SameKind(c.q, Qs(r))
  {}

  lemma NothingSplits(axes: seq<Axis>)
    requires SameKind(NoChange, axes)
    ensures Splits(NoChange, axes)
  {
    SumConst(Values(axes), 0.0);
  }

  lemma LimitedKind(a: Axis, axes: seq<Axis>, max: Option<real>)
    requires Splits(a, axes)
    ensures |LimitedOrKept(a, axes, max)| == |axes|
    ensures SameKind(a, LimitedOrKept(a, axes, max))
    ensures max.None? ==> Splits(a, LimitedOrKept(a, axes, max))
  {}

  /** On every path: an axis without a limit is split without loss, and no axis changes kind. */
  lemma SocSplits(cfg: SocConfig, c: Command, ds: seq<Snapshot>)
    requires ds != []
    ensures var r := SocShares(cfg, c, ds);
      && |r| == |ds| && SameKind(c.p, Ps(r)) && SameKind(c.q, Qs(r))
      && (cfg.maxP.None? ==> Splits(c.p, Ps(r)))
      && (cfg.maxQ.None? ==> Splits(c.q, Qs(r)))
  {
    hide Splits, Weighted, LimitedOrKept, ProportionalShares, EqualShares, SocWeights, KnownSocs, Paired;
    var r := SocShares(cfg, c, ds);
    if c.p.NoChange? && c.q.NoChange? {
      NothingSplits(Ps(r));
      NothingSplits(Qs(r));
    } else if Sum(Ratings(ds)) <= 0.0 {
      EqualSplits(c, |ds|);
      SplitsKind(c, r);
    } else if KnownSocs(ds) == [] {
      ProportionalSplits(c, ds);
      SplitsKind(c, r);
    } else {
      var rated := Weighted(c.q, Ratings(ds));
      WeightedSplits(c.q, Ratings(ds));
      LimitedKind(c.q, rated, cfg.maxQ);
      var qs := LimitedOrKept(c.q, rated, cfg.maxQ);
      if c.p.NoChange? {
        var ps := seq(|ds|, i => NoChange);
        NothingSplits(ps);
        PairedAxes(ps, qs);
      } else {
        var weights := SocWeights(cfg.gain, c.p.v > 0.0, ds);
        if Sum(weights) <= 0.0 {
          ProportionalSplits(c, ds);
          SplitsKind(c, r);
        } else {
          WeightedSplits(c.p, weights);
          LimitedKind(c.p, Weighted(c.p, weights), cfg.maxP);
          PairedAxes(LimitedOrKept(c.p, Weighted(c.p, weights), cfg.maxP), qs);
        }
      }
    }
  }

  // ---- Proportions ----

  ghost predicate InProportion(axes: seq<Axis>, weights: seq<real>) {
    |axes| == |weights| && forall i, j :: 0 <= i < |axes| && 0 <= j < |axes| ==>
      Product(axes[i], weights[j]) == Product(axes[j], weights[i])
  }

  function Product(a: Axis, weight: real): real {
    Effective(a) * weight
  }

  lemma PortionsInProportion(a: Axis, w: real, u: real, total: real)
    requires total != 0.0
    ensures Product(Portion(a, w, total), u) == Product(Portion(a, u, total), w)
  {
    var e := Effective(a);
    assert e * (w / total) * u == e * (w * u / total) && e * (u / total) * w == e * (w * u / total);
  }

  lemma WeightedInProportion(a: Axis, weights: seq<real>)
    requires Sum(weights) != 0.0
    ensures InProportion(Weighted(a, weights), weights)
  {
    hide Portion, Product, Sum;
    forall i, j | 0 <= i < |weights| && 0 <= j < |weights|
      ensures Product(Weighted(a, weights)[i], weights[j]) == Product(Weighted(a, weights)[j], weights[i])
    {
      PortionsInProportion(a, weights[i], weights[j], Sum(weights));
    }
  }

  /** Both axes are shared out in proportion to the ratings when those sum to something. */
  lemma ProportionalByRating(c: Command, ds: seq<Snapshot>)
    requires Sum(Ratings(ds)) > 0.0
    ensures InProportion(Ps(ProportionalShares(c, ds)), Ratings(ds))
    ensures InProportion(Qs(ProportionalShares(c, ds)), Ratings(ds))
  {
    WeightedInProportion(c.p, Ratings(ds));
    WeightedInProportion(c.q, Ratings(ds));
    PairedAxes(Weighted(c.p, Ratings(ds)), Weighted(c.q, Ratings(ds)));
    hide Weighted, Ratings, InProportion, Paired;
  }

  /** Without gain and limits the SOC distributor is the proportional one. */
  lemma ZeroGainIsProportional(cfg: SocConfig, c: Command, ds: seq<Snapshot>)
    requires cfg.gain == 0.0 && cfg.maxP.None? && cfg.maxQ.None?
    ensures SocShares(cfg, c, ds) == ProportionalShares(c, ds)
  {
    if ds == [] {
    } else if Sum(Ratings(ds)) > 0.0 && KnownSocs(ds) != [] && c.p.Target? {
      var d := c.p.v > 0.0;
      forall i | 0 <= i < |ds| ensures SocWeights(0.0, d, ds)[i] == ds[i].rated {
        UnitFactor(d, SocOr(ds[i], AverageSoc(ds)), AverageSoc(ds));
      }
      assert SocWeights(0.0, d, ds) == Ratings(ds);
      hide Weighted, SocWeights, Ratings, Sum;
    } else if Sum(Ratings(ds)) > 0.0 && c.p.NoChange? {
      NothingWeighted(Ratings(ds));
      hide Ratings, Sum, KnownSocs;
    }
  }

  lemma NothingWeighted(weights: seq<real>)
    requires Sum(weights) != 0.0
    ensures Weighted(NoChange, weights) == seq(|weights|, i => NoChange)
  {}

  lemma UnitFactor(discharging: bool, soc: real, average: real)
    ensures Factor(0.0, discharging, soc, average) == 1.0
  {}

  // ---- SOC order ----

  lemma FactorOrder(gain: real, soc: real, lower: real, average: real)
    requires gain >= 0.0 && lower <= soc
    ensures Factor(gain, true, lower, average) <= Factor(gain, true, soc, average)
    ensures Factor(gain, false, soc, average) <= Factor(gain, false, lower, average)
  {
    MulMono((lower - average) / 100.0, (soc - average) / 100.0, gain);
  }

  lemma WeightOrder(gain: real, average: real, d: Snapshot, e: Snapshot)
    requires gain >= 0.0 && d.rated == e.rated >= 0.0
    requires SocOr(e, average) <= SocOr(d, average)
    ensures SocWeight(gain, true, average, e) <= SocWeight(gain, true, average, d)
    ensures SocWeight(gain, false, average, d) <= SocWeight(gain, false, average, e)
  {
    hide Factor;
    var s, t := SocOr(d, average), SocOr(e, average);
    FactorOrder(gain, s, t, average);
    MulMono(Max(Factor(gain, true, t, average), 0.0), Max(Factor(gain, true, s, average), 0.0), d.rated);
    MulMono(Max(Factor(gain, false, s, average), 0.0), Max(Factor(gain, false, t, average), 0.0), d.rated);
  }

  lemma PortionOrder(a: Axis, w: real, u: real, total: real)
    requires total > 0.0 && a.Target?
    ensures a.v > 0.0 && u <= w ==> Portion(a, u, total).v <= Portion(a, w, total).v
    ensures a.v <= 0.0 && w <= u ==> Portion(a, u, total).v <= Portion(a, w, total).v
  {
    DivMono(u, w, total);
    DivMono(w, u, total);
    MulMono(u / total, w / total, a.v);
    MulMono(w / total, u / total, -a.v);
  }

  /** The unlimited P shares of two equally rated devices, the fuller first. */
  lemma WeightedOrder(cfg: SocConfig, c: Command, ds: seq<Snapshot>, i: nat, j: nat)
    requires i < |ds| && j < |ds| && c.p.Target? && SocPath(cfg, c, ds)
    requires cfg.gain >= 0.0 && ds[i].rated == ds[j].rated >= 0.0
    requires SocOr(ds[j], AverageSoc(ds)) <= SocOr(ds[i], AverageSoc(ds))
    ensures var x := Values(Weighted(c.p, SocWeights(cfg.gain, c.p.v > 0.0, ds))); x[j] <= x[i]
  {
    var weights := SocWeights(cfg.gain, c.p.v > 0.0, ds);
    WeightOrder(cfg.gain, AverageSoc(ds), ds[i], ds[j]);
    hide Sum, SocWeight;
    PortionOrder(c.p, weights[i], weights[j], Sum(weights));
  }

  /** The P share of larger magnitude is handed out first. */
  predicate LargerFirst(c: Command, i: nat, j: nat) {
    if Effective(c.p) > 0.0 then i <= j else j <= i
  }

  /** Of two equally rated devices, the fuller one discharges at least as much and charges at most as much; under a
      limit, with non-negative ratings and if the one that is to work harder is listed first or the fleet has fewer than
      four devices. */
  lemma SocOrder(cfg: SocConfig, c: Command, ds: seq<Snapshot>, i: nat, j: nat)
    requires i < |ds| && j < |ds| && c.p.Target? && cfg.gain >= 0.0 && ds[i].rated == ds[j].rated >= 0.0
    requires cfg.maxP.Some? ==> cfg.maxP.value >= 0.0 && NonNegative(Ratings(ds)) && (LargerFirst(c, i, j) || |ds| < 4)
    requires KnownSocs(ds) != [] && SocOr(ds[j], AverageSoc(ds)) <= SocOr(ds[i], AverageSoc(ds))
    ensures |SocShares(cfg, c, ds)| == |ds|
    ensures var r := SocShares(cfg, c, ds); r[j].p.Target? && r[i].p.Target? && r[j].p.v <= r[i].p.v
  {
    SocSplits(cfg, c, ds);
    if SocPath(cfg, c, ds) {
      WeightedOrder(cfg, c, ds, i, j);
      OrderedShares(cfg, c, ds, i, j);
    }
  }

  lemma OrderedShares(cfg: SocConfig, c: Command, ds: seq<Snapshot>, i: nat, j: nat)
    requires i < |ds| && j < |ds| && c.p.Target? && SocPath(cfg, c, ds)
    requires cfg.maxP.Some? ==> cfg.maxP.value >= 0.0 && NonNegative(Ratings(ds)) && (LargerFirst(c, i, j) || |ds| < 4)
    requires var x := Values(Weighted(c.p, SocWeights(cfg.gain, c.p.v > 0.0, ds))); x[j] <= x[i]
    ensures |SocShares(cfg, c, ds)| == |ds|
    ensures var r := Values(Ps(SocShares(cfg, c, ds))); r[j] <= r[i]
  {
    var weights := SocWeights(cfg.gain, c.p.v > 0.0, ds);
    var shares := Weighted(c.p, weights);
    hide Weighted, SocWeights, Paired, Sum, Limited, LimitedAxes, KnownSocs;
    var qs := LimitedOrKept(c.q, Weighted(c.q, Ratings(ds)), cfg.maxQ);
    PairedAxes(LimitedOrKept(c.p, shares, cfg.maxP), qs);
    if cfg.maxP.Some? {
      SocWeightsNonNegative(cfg.gain, c.p.v > 0.0, ds);
      LimitedValues(shares, cfg.maxP.value);
      WeightedAxis(c.p, weights);
      OrderLimited(Values(shares), cfg.maxP.value, c.p.v, i, j);
    }
  }

  /** The sign of every weighted share is the command's. */
  lemma WeightedAxis(a: Axis, weights: seq<real>)
    requires a.Target? && NonNegative(weights) && Sum(weights) > 0.0
    ensures a.v > 0.0 ==> NonNegative(Values(Weighted(a, weights)))
    ensures a.v <= 0.0 ==> NonNegative(Neg(Values(Weighted(a, weights))))
  {
    hide Portion, Sum;
    forall i | 0 <= i < |weights| {
      PortionSign(a, weights[i], Sum(weights));
    }
  }

  lemma OrderLimited(x: seq<real>, max: real, command: real, i: nat, j: nat)
    requires max >= 0.0 && i < |x| && j < |x| && x[j] <= x[i]
    requires if command > 0.0 then NonNegative(x) else NonNegative(Neg(x))
    requires |x| < 4 || if command > 0.0 then i <= j else j <= i
    ensures Limited(x, max)[j] <= Limited(x, max)[i]
  {
    LimitServes(x, max);
    hide Limited, Sum, SecondOverflow, Times;
    if command > 0.0 {
      LimitKeepsOrder(x, max, i, j);
    } else {
      assert Neg(x)[i] >= 0.0 && Neg(x)[j] >= 0.0;
      LimitKeepsOrder(x, max, j, i);
      assert Neg(Limited(x, max))[i] >= 0.0 && Neg(Limited(x, max))[j] >= 0.0;
    }
  }

  // ---- Limits ----

  /** The SOC-weighted path; every other path falls back to equal or proportional shares. */
  ghost predicate SocPath(cfg: SocConfig, c: Command, ds: seq<Snapshot>) {
    && Sum(Ratings(ds)) > 0.0 && KnownSocs(ds) != []
    && (c.p.Target? ==> Sum(SocWeights(cfg.gain, c.p.v > 0.0, ds)) > 0.0)
  }

  lemma LimitedAxesBound(axes: seq<Axis>, max: real)
    requires max >= 0.0 && forall i :: 0 <= i < |axes| ==> axes[i].Target?
    ensures forall i :: 0 <= i < |axes| ==> Abs(Effective(LimitedAxes(axes, Some(max))[i])) <= max
  {
    LimitBounds(Values(axes), max);
    assert Values(axes) == seq(|axes|, i requires 0 <= i < |axes| => axes[i].v);
  }

  ghost predicate Within(axes: seq<Axis>, max: Option<real>) {
    max.Some? ==> forall i :: 0 <= i < |axes| ==> Abs(Effective(axes[i])) <= max.value
  }

  lemma LimitedWithin(a: Axis, axes: seq<Axis>, max: Option<real>)
    requires SameKind(a, axes) && (max.Some? ==> max.value >= 0.0)
    ensures Within(LimitedOrKept(a, axes, max), max)
  {
    hide LimitedAxes;
    if a.Target? && max.Some? {
      LimitedAxesBound(axes, max.value);
    }
  }

  /** On the SOC-weighted path every device stays within both limits. */
  lemma SocLimitBinds(cfg: SocConfig, c: Command, ds: seq<Snapshot>)
    requires SocPath(cfg, c, ds) && (c.p.Target? || c.q.Target?)
    requires cfg.maxP.Some? ==> cfg.maxP.value >= 0.0
    requires cfg.maxQ.Some? ==> cfg.maxQ.value >= 0.0
    ensures Within(Ps(SocShares(cfg, c, ds)), cfg.maxP) && Within(Qs(SocShares(cfg, c, ds)), cfg.maxQ)
  {
    hide Weighted, LimitedOrKept, SocWeights, Paired, Sum, Within;
    var rated := Weighted(c.q, Ratings(ds));
    LimitedWithin(c.q, rated, cfg.maxQ);
    var qs := LimitedOrKept(c.q, rated, cfg.maxQ);
    if c.p.NoChange? {
      var ps := seq(|ds|, i => NoChange);
      PairedAxes(ps, qs);
      NothingWithin(ps, cfg.maxP);
    } else {
      var weighted := Weighted(c.p, SocWeights(cfg.gain, c.p.v > 0.0, ds));
      LimitedWithin(c.p, weighted, cfg.maxP);
      PairedAxes(LimitedOrKept(c.p, weighted, cfg.maxP), qs);
    }
  }

  lemma NothingWithin(axes: seq<Axis>, max: Option<real>)
    requires SameKind(NoChange, axes) && (max.Some? ==> max.value >= 0.0)
    ensures Within(axes, max)
  {}

  /** When a fallback share happens to respect the limit it never looked at. */
  ghost predicate FallbackFits(a: Axis, max: Option<real>, ds: seq<Snapshot>) {
    max.None? || ds == [] ||
    if Sum(Ratings(ds)) <= 0.0 then Abs(Effective(a)) <= Times(|ds|, max.value)
    else forall i :: 0 <= i < |ds| ==> Abs(Product(a, ds[i].rated)) <= Weighed(max.value, Sum(Ratings(ds)))
  }

  lemma AbsQuotientWithin(x: real, n: real, k: real)
    requires n > 0.0
    ensures Abs(x / n) <= k <==> Abs(x) <= Weighed(k, n)
  {
    var q := x / n;
    assert q * n == x;
    assert Abs(q) * n == Abs(x);
    MulMono(Abs(q), k, n);
    DivMono(Abs(x), k * n, n);
    DivOf(k * n, n, k);
    DivOf(Abs(x), n, Abs(q));
  }

  lemma ScaledQuotient(e: real, w: real, n: real)
    requires n != 0.0
    ensures Weighed(e, w / n) == Weighed(e, w) / n
  {
    var f := w / n;
    assert f * n == w;
    DivOf(e * w, n, e * f);
  }

  lemma PortionForm(a: Axis, w: real, total: real)
    requires total != 0.0
    ensures Effective(Portion(a, w, total)) == Weighed(Effective(a), w / total)
    ensures Product(a, w) == Weighed(Effective(a), w)
  {}

  lemma PortionWithin(a: Axis, w: real, total: real, k: real)
    requires total > 0.0
    ensures Abs(Effective(Portion(a, w, total))) <= k <==> Abs(Product(a, w)) <= Weighed(k, total)
  {
    hide Weighed, Portion, Product, Effective;
    PortionForm(a, w, total);
    ScaledQuotient(Effective(a), w, total);
    AbsQuotientWithin(Weighed(Effective(a), w), total, k);
  }

  lemma EqualWithin(a: Axis, n: nat, axes: seq<Axis>, max: Option<real>)
    requires 0 < n == |axes| && (max.Some? ==> max.value >= 0.0)
    requires forall i :: 0 <= i < n ==> axes[i] == Share(a, Effective(a) / n as real)
    ensures Within(axes, max) <==> max.None? || Abs(Effective(a)) <= Times(n, max.value)
  {
    if max.Some? {
      AbsQuotientWithin(Effective(a), n as real, max.value);
      assert Abs(Effective(axes[0])) <= max.value <==> Abs(Effective(a)) <= Times(n, max.value);
    }
  }

  lemma RatedWithin(a: Axis, max: Option<real>, ds: seq<Snapshot>)
    requires Sum(Ratings(ds)) > 0.0 && (max.Some? ==> max.value >= 0.0)
    ensures Within(Weighted(a, Ratings(ds)), max) <==> FallbackFits(a, max, ds)
  {
    if max.Some? {
      hide Portion, Product, Weighed, Sum;
      var axes := Weighted(a, Ratings(ds));
      forall i | 0 <= i < |ds|
        ensures Abs(Effective(axes[i])) <= max.value
           <==> Abs(Product(a, ds[i].rated)) <= Weighed(max.value, Sum(Ratings(ds)))
      {
        PortionWithin(a, ds[i].rated, Sum(Ratings(ds)), max.value);
      }
    }
  }

  lemma FallbackWithin(c: Command, ds: seq<Snapshot>, maxP: Option<real>, maxQ: Option<real>)
    requires (maxP.Some? ==> maxP.value >= 0.0) && (maxQ.Some? ==> maxQ.value >= 0.0) && ds != []
    ensures Within(Ps(ProportionalShares(c, ds)), maxP) <==> FallbackFits(c.p, maxP, ds)
    ensures Within(Qs(ProportionalShares(c, ds)), maxQ) <==> FallbackFits(c.q, maxQ, ds)
  {
    if Sum(Ratings(ds)) <= 0.0 {
      var r := EqualShares(c, |ds|);
      EqualWithin(c.p, |ds|, Ps(r), maxP);
      EqualWithin(c.q, |ds|, Qs(r), maxQ);
    } else {
      RatedWithin(c.p, maxP, ds);
      RatedWithin(c.q, maxQ, ds);
      PairedAxes(Weighted(c.p, Ratings(ds)), Weighted(c.q, Ratings(ds)));
      hide Weighted, Paired, Within, FallbackFits, Sum, Ratings;
    }
  }

  /** Over every path: the limits are respected exactly on the SOC-weighted path and where the fallback's share,
      computed without them, happens to fit. */
  lemma LimitRespectedIff(cfg: SocConfig, c: Command, ds: seq<Snapshot>)
    requires cfg.maxP.Some? ==> cfg.maxP.value >= 0.0
    requires cfg.maxQ.Some? ==> cfg.maxQ.value >= 0.0
    ensures Within(Ps(SocShares(cfg, c, ds)), cfg.maxP) <==> SocPath(cfg, c, ds) || FallbackFits(c.p, cfg.maxP, ds)
    ensures Within(Qs(SocShares(cfg, c, ds)), cfg.maxQ) <==> SocPath(cfg, c, ds) || FallbackFits(c.q, cfg.maxQ, ds)
  {
    if ds == [] {
    } else if c.p.NoChange? && c.q.NoChange? {
      var r := SocShares(cfg, c, ds);
      NothingWithin(Ps(r), cfg.maxP);
      NothingWithin(Qs(r), cfg.maxQ);
      NothingFits(cfg.maxP, ds);
      NothingFits(cfg.maxQ, ds);
    } else if SocPath(cfg, c, ds) {
      SocLimitBinds(cfg, c, ds);
    } else {
      hide Within, FallbackFits, Sum, KnownSocs, SocWeights, Ratings, Weighted, LimitedOrKept, Paired;
      FallbackWithin(c, ds, cfg.maxP, cfg.maxQ);
    }
  }

  lemma NothingFits(max: Option<real>, ds: seq<Snapshot>)
    requires max.Some? ==> max.value >= 0.0
    ensures FallbackFits(NoChange, max, ds)
  {
    if max.Some? && Sum(Ratings(ds)) > 0.0 {
      MulMono(0.0, Sum(Ratings(ds)), max.value);
      hide Sum;
      assert forall w: real :: Product(NoChange, w) == 0.0;
    }
  }

  lemma PortionSign(a: Axis, w: real, total: real)
    requires a.Target? && w >= 0.0 && total > 0.0
    ensures a.v >= 0.0 ==> Effective(Portion(a, w, total)) >= 0.0
    ensures a.v <= 0.0 ==> Effective(Portion(a, w, total)) <= 0.0
  {
    DivMono(0.0, w, total);
    MulMono(0.0, w / total, a.v);
    MulMono(0.0, w / total, -a.v);
  }

  lemma SocWeightsNonNegative(gain: real, discharging: bool, ds: seq<Snapshot>)
    requires KnownSocs(ds) != [] && NonNegative(Ratings(ds))
    ensures NonNegative(SocWeights(gain, discharging, ds))
  {
    forall i | 0 <= i < |ds| ensures SocWeight(gain, discharging, AverageSoc(ds), ds[i]) >= 0.0 {
      assert Ratings(ds)[i] >= 0.0;
      MulMono(0.0, Max(Factor(gain, discharging, SocOr(ds[i], AverageSoc(ds)), AverageSoc(ds)), 0.0), ds[i].rated);
    }
  }

  /** With non-negative ratings and limits that have room for the command, the limited P shares deliver all of
      it but at most half of what the third pass cut off (or EPS), and never more. */
  lemma SocServes(cfg: SocConfig, c: Command, ds: seq<Snapshot>)
    requires SocPath(cfg, c, ds) && c.p.Target? && NonNegative(Ratings(ds))
    requires cfg.maxP.Some? && cfg.maxP.value >= 0.0
    ensures var x := Values(Weighted(c.p, SocWeights(cfg.gain, c.p.v > 0.0, ds)));
      var served := Sum(Values(Ps(SocShares(cfg, c, ds))));
      && Abs(served) <= Abs(c.p.v)
      && (Times(|ds|, cfg.maxP.value) >= Abs(c.p.v) ==>
          Abs(c.p.v) - Abs(served) <= Max(EPS, Abs(SecondOverflow(x, cfg.maxP.value)) / 2.0))
  {
    var weights := SocWeights(cfg.gain, c.p.v > 0.0, ds);
    var shares, max := Weighted(c.p, weights), cfg.maxP.value;
    SocWeightsNonNegative(cfg.gain, c.p.v > 0.0, ds);
    WeightedAxis(c.p, weights);
    WeightedSplits(c.p, weights);
    LimitServes(Values(shares), max);
    LimitedValues(shares, max);
    hide Weighted, SocWeights, Paired, Sum, Limited, Times, SecondOverflow, LimitedAxes;
    PairedAxes(LimitedAxes(shares, cfg.maxP), LimitedOrKept(c.q, Weighted(c.q, Ratings(ds)), cfg.maxQ));
  }

  lemma LimitedValues(axes: seq<Axis>, max: real)
    requires forall i :: 0 <= i < |axes| ==> axes[i].Target?
    ensures Values(LimitedAxes(axes, Some(max))) == Limited(Values(axes), max)
  {
    assert Values(axes) == seq(|axes|, i requires 0 <= i < |axes| => axes[i].v);
  }
}
