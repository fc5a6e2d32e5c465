/** Splitting a system command over devices: equal, proportional and SOC-weighted shares, and the
    four-pass limit with overflow transfer. Devices carry different ids, so results are listed by position. */
module Distributor {
  import opened Numeric

  datatype Axis = NoChange | Target(v: real)

  datatype Command = Command(p: Axis, q: Axis)

  /** What distribution reads of a device: its rating (0 when missing) and its SOC, if any. */
  datatype Snapshot = Snapshot(rated: real, soc: Option<real>)

  datatype SocConfig = SocConfig(gain: real, maxP: Option<real>, maxQ: Option<real>)

  function Effective(a: Axis): real {
    if a.NoChange? then 0.0 else a.v
  }

  /** An axis with NO_CHANGE is not split. */
  function Share(a: Axis, amount: real): Axis {
    if a.NoChange? then NoChange else Target(amount)
  }

  /** The axis is split for every device or for none. */
  ghost predicate SameKind(a: Axis, r: seq<Axis>) {
    forall i :: 0 <= i < |r| ==> r[i].NoChange? == a.NoChange?
  }

  // ---- Equal and proportional shares ----

  function EqualShares(c: Command, n: nat): seq<Command>
  {
    if n == 0 then []
    else
      var each := Command(Share(c.p, Effective(c.p) / n as real), Share(c.q, Effective(c.q) / n as real));
      seq(n, i => each)
  }

  function Ratings(ds: seq<Snapshot>): seq<real> {
    seq(|ds|, i requires 0 <= i < |ds| => ds[i].rated)
  }

  /** A device's part of an axis: its weight over the total weight. */
  function Portion(a: Axis, weight: real, total: real): Axis
    requires total != 0.0
  {
    Share(a, Effective(a) * (weight / total))
  }

  /** Shares in proportion to the given weights. */
  function Weighted(a: Axis, weights: seq<real>): (r: seq<Axis>)
    requires Sum(weights) != 0.0
    ensures |r| == |weights| && SameKind(a, r)
  {
    seq(|weights|, i requires 0 <= i < |weights| => Portion(a, weights[i], Sum(weights)))
  }

  function Paired(ps: seq<Axis>, qs: seq<Axis>): seq<Command>
    requires |ps| == |qs|
  {
    seq(|ps|, i requires 0 <= i < |ps| => Command(ps[i], qs[i]))
  }

  function ProportionalShares(c: Command, ds: seq<Snapshot>): seq<Command> {
    if Sum(Ratings(ds)) <= 0.0 then EqualShares(c, |ds|)
    else Paired(Weighted(c.p, Ratings(ds)), Weighted(c.q, Ratings(ds)))
  }

  // ---- SOC-weighted shares ----

  function KnownSocs(ds: seq<Snapshot>): seq<real> {
    if ds == [] then []
    else KnownSocs(ds[..|ds| - 1]) + if ds[|ds| - 1].soc.Some? then [ds[|ds| - 1].soc.value] else []
  }

  function AverageSoc(ds: seq<Snapshot>): real
    requires KnownSocs(ds) != []
  {
    Sum(KnownSocs(ds)) / |KnownSocs(ds)| as real
  }

  function SocOr(d: Snapshot, average: real): real {
    if d.soc.Some? then d.soc.value else average
  }

  /** More than 1 for a device that should work harder than its rating, less than 1 for one that should rest. */
  function Factor(gain: real, discharging: bool, soc: real, average: real): real {
    var deviation := (soc - average) / 100.0;
    if discharging then 1.0 + gain * deviation else 1.0 - gain * deviation
  }

  function SocWeight(gain: real, discharging: bool, average: real, d: Snapshot): real {
    Max(Factor(gain, discharging, SocOr(d, average), average), 0.0) * d.rated
  }

  function SocWeights(gain: real, discharging: bool, ds: seq<Snapshot>): (r: seq<real>)
    requires KnownSocs(ds) != []
    ensures |r| == |ds|
  {
    seq(|ds|, i requires 0 <= i < |ds| => SocWeight(gain, discharging, AverageSoc(ds), ds[i]))
  }

  // ---- The four-pass limit ----

  function Clip(v: real, max: real): real {
    if Abs(v) > max then (if v > 0.0 then max else -max) else v
  }

  function Clipped(x: seq<real>, max: real): seq<real> {
    seq(|x|, i requires 0 <= i < |x| => Clip(x[i], max))
  }

  function Excess(x: seq<real>, max: real): seq<real> {
    seq(|x|, i requires 0 <= i < |x| => x[i] - Clip(x[i], max))
  }

  /** The assignments of the devices not limited in pass 1; zero for the others. */
  function FreeLoads(x: seq<real>, max: real): seq<real> {
    seq(|x|, i requires 0 <= i < |x| => if Abs(x[i]) > max then 0.0 else Abs(x[i]))
  }

  function FreeFlags(x: seq<real>, max: real): seq<real> {
    seq(|x|, i requires 0 <= i < |x| => if Abs(x[i]) > max then 0.0 else 1.0)
  }

  /** Pass 2's share of the overflow: by current assignment, or equally when nothing is assigned. */
  function FreeShare(v: real, max: real, load: real, count: real): real {
    if Abs(v) > max then 0.0
    else if load > 0.000000001 then Abs(v) / load
    else if count > 0.0 then 1.0 / count else 0.0
  }

  function Spilled(clipped: real, v: real, max: real, overflow: real, load: real, count: real): real {
    clipped + overflow * FreeShare(v, max, load, count)
  }

  /** After pass 2. */
  function Spread(x: seq<real>, max: real): (r: seq<real>)
    ensures |r| == |x|
  {
    var overflow := Sum(Excess(x, max));
    if Abs(overflow) > 0.000000001 then
      var load, count := Sum(FreeLoads(x, max)), Sum(FreeFlags(x, max));
      seq(|x|, i requires 0 <= i < |x| => Spilled(Clip(x[i], max), x[i], max, overflow, load, count))
    else Clipped(x, max)
  }

  /** The room left by devices that neither pass 1 nor pass 3 limited. */
  function Headroom(x: seq<real>, max: real): seq<real> {
    var v := Spread(x, max);
    seq(|x|, i requires 0 <= i < |x| =>
      if Abs(x[i]) > max || Abs(v[i]) > max then 0.0 else max - Abs(v[i]))
  }

  /** The part of what remains that goes with room h out of the whole room. */
  function Part(remaining: real, h: real, room: real): real
    requires room != 0.0
  {
    remaining * (h / room)
  }

  function Give(h: real, room: real, remaining: real): real
    requires room != 0.0
  {
    Min(h, Part(remaining, h, room))
  }

  function Given(w: seq<real>, k: nat, sign: real, share: real): (r: seq<real>)
    requires k < |w|
    ensures |r| == |w|
  {
    w[k := w[k] + sign * share]
  }

  /** Pass 4 for the devices from k on: each takes its part of what remains, until almost nothing does. */
  function Fill(w: seq<real>, h: seq<real>, room: real, sign: real, remaining: real, k: nat): (r: seq<real>)
    requires |w| == |h| && k <= |w| && room != 0.0
    ensures |r| == |w|
    decreases |w| - k
  {
    if k == |w| then w
    else
      var share := Give(h[k], room, remaining);
      var w' := Given(w, k, sign, share);
      if remaining - share < 0.000000001 then w' else Fill(w', h, room, sign, remaining - share, k + 1)
  }

  /** What pass 3 left, plus the overflow it cut off as far as pass 4 finds room for it. */
  function Topped(w: seq<real>, h: seq<real>, overflow2: real): (r: seq<real>)
    requires |w| == |h|
    ensures |r| == |w|
  {
    if Abs(overflow2) > 0.000000001 && Sum(h) > 0.000000001 then
      Fill(w, h, Sum(h), if overflow2 > 0.0 then 1.0 else -1.0, Abs(overflow2), 0)
    else w
  }

  function Limited(x: seq<real>, max: real): (r: seq<real>)
    ensures |r| == |x|
  {
    var v := Spread(x, max);
    Topped(Clipped(v, max), Headroom(x, max), Sum(Excess(v, max)))
  }

  // ---- The SOC-balancing result ----

  function LimitedAxes(axes: seq<Axis>, max: Option<real>): (r: seq<Axis>)
    requires forall i :: 0 <= i < |axes| ==> axes[i].Target?
    ensures |r| == |axes|
  {
    if max.None? then axes
    else
      var out := Limited(seq(|axes|, i requires 0 <= i < |axes| => axes[i].v), max.value);
      seq(|axes|, i requires 0 <= i < |axes| => Target(out[i]))
  }

  function LimitedOrKept(a: Axis, axes: seq<Axis>, max: Option<real>): (r: seq<Axis>)
    requires SameKind(a, axes)
    ensures |r| == |axes|
  {
    if a.NoChange? then axes else LimitedAxes(axes, max)
  }

  function SocShares(cfg: SocConfig, c: Command, ds: seq<Snapshot>): seq<Command> {
    if ds == [] then []
    else if c.p.NoChange? && c.q.NoChange? then seq(|ds|, i => Command(NoChange, NoChange))
    else if Sum(Ratings(ds)) <= 0.0 then EqualShares(c, |ds|)
    else if KnownSocs(ds) == [] then ProportionalShares(c, ds)
    else
      var qs := LimitedOrKept(c.q, Weighted(c.q, Ratings(ds)), cfg.maxQ);
      if c.p.NoChange? then Paired(seq(|ds|, i => NoChange), qs)
      else
        var weights := SocWeights(cfg.gain, c.p.v > 0.0, ds);
        if Sum(weights) <= 0.0 then ProportionalShares(c, ds)
        else Paired(LimitedOrKept(c.p, Weighted(c.p, weights), cfg.maxP), qs)
  }

  // ---- The loops ----

  method Proportional(c: Command, ds: seq<Snapshot>) returns (out: seq<Command>)
    ensures out == ProportionalShares(c, ds)
  {
    var n := |ds|;
    var total := SumRatings(ds);
    if n == 0 {
      return [];
    }
    if total <= 0.0 {
      return EqualShares(c, n);
    }
    out := [];
    var i := 0;
    while i < n
      invariant i <= n && |out| == i
      invariant forall k :: 0 <= k < i ==> out[k] == ProportionalShares(c, ds)[k]
    {
      out := out + [Command(Portion(c.p, ds[i].rated, total), Portion(c.q, ds[i].rated, total))];
      i := i + 1;
    }
  }

  method SumRatings(ds: seq<Snapshot>) returns (total: real)
    ensures total == Sum(Ratings(ds))
  {
    total := 0.0;
    var i := 0;
    while i < |ds|
      invariant i <= |ds| && total == Sum(Ratings(ds)[..i])
    {
      SumPrefix(Ratings(ds), i);
      total := total + ds[i].rated;
      i := i + 1;
    }
    assert Ratings(ds)[..|ds|] == Ratings(ds);
  }

  /** `_apply_clamp_and_overflow`: the four passes over one axis. */
  method ApplyClampAndOverflow(x: seq<real>, max: real) returns (values: seq<real>)
    ensures values == Limited(x, max)
  {
    var overflow: real;
    values, overflow := ClampPass(x, max);
    if Abs(overflow) > 0.000000001 {
      values := SpreadPass(x, max, values, overflow);
    }
    assert values == Spread(x, max);
    var v := values;
    var overflow2: real;
    values, overflow2 := ClampPass(values, max);
    if Abs(overflow2) > 0.000000001 {
      var h, room := Rooms(x, v, max, values);
      if room > 0.000000001 {
        values := FillPass(values, h, room, if overflow2 > 0.0 then 1.0 else -1.0, Abs(overflow2));
      }
    }
  }

  /** Passes 1 and 3: limit every value and add up what was cut off. */
  method ClampPass(x: seq<real>, max: real) returns (values: seq<real>, overflow: real)
    ensures values == Clipped(x, max) && overflow == Sum(Excess(x, max))
  {
    values, overflow := [], 0.0;
    var i := 0;
    while i < |x|
      invariant i <= |x| && values == Clipped(x, max)[..i] && overflow == Sum(Excess(x, max)[..i])
    {
      SumPrefix(Excess(x, max), i);
      assert Clipped(x, max)[..i + 1] == Clipped(x, max)[..i] + [Clip(x[i], max)];
      if Abs(x[i]) > max {
        var clamped := if x[i] > 0.0 then max else -max;
        overflow := overflow + (x[i] - clamped);
        values := values + [clamped];
      } else {
        values := values + [x[i]];
      }
      i := i + 1;
    }
    assert Clipped(x, max)[..|x|] == Clipped(x, max) && Excess(x, max)[..|x|] == Excess(x, max);
  }

  /** Pass 2: the overflow goes to the devices pass 1 did not limit. */
  method SpreadPass(x: seq<real>, max: real, clipped: seq<real>, overflow: real) returns (values: seq<real>)
    requires clipped == Clipped(x, max) && overflow == Sum(Excess(x, max)) && Abs(overflow) > 0.000000001
    ensures values == Spread(x, max)
  {
    var load, count := 0.0, 0.0;
    var i := 0;
    while i < |x|
      invariant i <= |x| && load == Sum(FreeLoads(x, max)[..i]) && count == Sum(FreeFlags(x, max)[..i])
    {
      SumPrefix(FreeLoads(x, max), i);
      SumPrefix(FreeFlags(x, max), i);
      if Abs(x[i]) <= max {
        load, count := load + Abs(clipped[i]), count + 1.0;
      }
      i := i + 1;
    }
    assert FreeLoads(x, max)[..|x|] == FreeLoads(x, max) && FreeFlags(x, max)[..|x|] == FreeFlags(x, max);
    values := [];
    i := 0;
    while i < |x|
      invariant i <= |x| && |values| == i
      invariant forall k :: 0 <= k < i ==> values[k] == Spread(x, max)[k]
    {
      values := values + [Spilled(clipped[i], x[i], max, overflow, load, count)];
      i := i + 1;
    }
  }

  method Rooms(x: seq<real>, v: seq<real>, max: real, w: seq<real>) returns (h: seq<real>, room: real)
    requires v == Spread(x, max) && w == Clipped(v, max) && |v| == |x|
    ensures h == Headroom(x, max) && room == Sum(h)
  {
    hide Spread;
    h, room := [], 0.0;
    var i := 0;
    while i < |x|
      invariant i <= |x| && h == Headroom(x, max)[..i] && room == Sum(h)
    {
      var r := if Abs(x[i]) > max || Abs(v[i]) > max then 0.0 else max - Abs(w[i]);
      SumAppend(h, r);
      assert Headroom(x, max)[..i + 1] == Headroom(x, max)[..i] + [r];
      h, room := h + [r], room + r;
      i := i + 1;
    }
    assert Headroom(x, max)[..|x|] == Headroom(x, max);
  }

  /** Pass 4. */
  method FillPass(w: seq<real>, h: seq<real>, room: real, sign: real, amount: real) returns (values: seq<real>)
    requires |w| == |h| && room != 0.0
    ensures values == Fill(w, h, room, sign, amount, 0)
  {
    values := w;
    var remaining := amount;
    var k := 0;
    while k < |h|
      invariant k <= |h| == |values|
      invariant Fill(values, h, room, sign, remaining, k) == Fill(w, h, room, sign, amount, 0)
    {
      var share := Give(h[k], room, remaining);
      values := Given(values, k, sign, share);
      remaining := remaining - share;
      if remaining < 0.000000001 {
        return;
      }
      k := k + 1;
    }
  }

  method SocBalancing(cfg: SocConfig, c: Command, ds: seq<Snapshot>) returns (out: seq<Command>)
    ensures out == SocShares(cfg, c, ds)
  {
    if ds == [] {
      return [];
    }
    if c.p.NoChange? && c.q.NoChange? {
      return seq(|ds|, i => Command(NoChange, NoChange));
    }
    var totalRated := SumRatings(ds);
    if totalRated <= 0.0 {
      return EqualShares(c, |ds|);
    }
    var socs := KnownSocs(ds);
    if socs == [] {
      out := Proportional(c, ds);
      return;
    }
    var qs := LimitAxis(c.q, Weighted(c.q, Ratings(ds)), cfg.maxQ);
    if c.p.NoChange? {
      return Paired(seq(|ds|, i => NoChange), qs);
    }
    var weights, total := WeighSocs(cfg.gain, c.p.v > 0.0, ds);
    if total <= 0.0 {
      out := Proportional(c, ds);
      return;
    }
    var ps := LimitAxis(c.p, Weighted(c.p, weights), cfg.maxP);
    out := Paired(ps, qs);
  }

  method WeighSocs(gain: real, discharging: bool, ds: seq<Snapshot>) returns (weights: seq<real>, total: real)
    requires KnownSocs(ds) != []
    ensures weights == SocWeights(gain, discharging, ds) && total == Sum(weights)
  {
    var average := AverageSoc(ds);
    weights, total := [], 0.0;
    var i := 0;
    while i < |ds|
      invariant i <= |ds| && weights == SocWeights(gain, discharging, ds)[..i] && total == Sum(weights)
    {
      var w := SocWeight(gain, discharging, average, ds[i]);
      SumAppend(weights, w);
      assert SocWeights(gain, discharging, ds)[..i + 1] == SocWeights(gain, discharging, ds)[..i] + [w];
      weights, total := weights + [w], total + w;
      i := i + 1;
    }
    assert SocWeights(gain, discharging, ds)[..|ds|] == SocWeights(gain, discharging, ds);
  }

  method LimitAxis(a: Axis, axes: seq<Axis>, max: Option<real>) returns (r: seq<Axis>)
    requires SameKind(a, axes)
    ensures r == LimitedOrKept(a, axes, max)
  {
    if a.NoChange? || max.None? {
      return axes;
    }
    var out := ApplyClampAndOverflow(seq(|axes|, i requires 0 <= i < |axes| => axes[i].v), max.value);
    r := seq(|axes|, i requires 0 <= i < |axes| => Target(out[i]));
  }
}
