/** The four-pass limit: what it always bounds, what it guarantees to each device, and how much of the
    demand can get lost on the way. */
module DistributorLimits {
  import opened Numeric
  import opened Distributor

  const EPS := 0.000000001

  ghost predicate NonNegative(x: seq<real>) {
    forall i :: 0 <= i < |x| ==> x[i] >= 0.0
  }

  function Neg(x: seq<real>): seq<real> {
    seq(|x|, i requires 0 <= i < |x| => -x[i])
  }

  /** What pass 3 cuts off. */
  function SecondOverflow(x: seq<real>, max: real): real {
    Sum(Excess(Spread(x, max), max))
  }

  // ---- Pass 4 ----

  lemma Fraction(h: real, room: real)
    requires 0.0 <= h <= room && room > 0.0
    ensures 0.0 <= h / room <= 1.0 && room * (h / room) == h
  {
    DivMono(0.0, h, room);
    DivMono(h, room, room);
  }

  lemma PartBounds(remaining: real, h: real, room: real)
    requires 0.0 <= h <= room && room > 0.0 && remaining >= 0.0
    ensures 0.0 <= Part(remaining, h, room) <= remaining
    ensures remaining <= room ==> Part(remaining, h, room) <= h
  {
    Fraction(h, room);
    MulMono(0.0, h / room, remaining);
    MulMono(h / room, 1.0, remaining);
    MulMono(remaining, room, h / room);
  }

  lemma GiveBounds(h: real, room: real, remaining: real)
    requires 0.0 <= h <= room && room > 0.0 && remaining >= 0.0
    ensures 0.0 <= Give(h, room, remaining) <= h && Give(h, room, remaining) <= remaining
    ensures remaining <= room ==> Give(h, room, remaining) == Part(remaining, h, room)
  {
    hide Part;
    PartBounds(remaining, h, room);
  }

  /** What pass 4 could not hand out. */
  function Left(h: seq<real>, room: real, remaining: real, k: nat): real
    requires k <= |h| && room != 0.0
    decreases |h| - k
  {
    if k == |h| then remaining
    else
      var rest := remaining - Give(h[k], room, remaining);
      if rest < EPS then rest else Left(h, room, rest, k + 1)
  }

  ghost predicate Rooming(h: seq<real>, room: real) {
    room > 0.0 && forall i :: 0 <= i < |h| ==> 0.0 <= h[i] <= room
  }

  /** Pass 4 moves each device outward by at most its own room. */
  lemma {:induction false} FillWithinRoom(w: seq<real>, h: seq<real>, room: real, remaining: real, k: nat)
    requires |w| == |h| && k <= |w| && Rooming(h, room) && remaining >= 0.0
    ensures var r := Fill(w, h, room, 1.0, remaining, k);
      && (forall i :: 0 <= i < k ==> r[i] == w[i])
      && (forall i :: k <= i < |r| ==> w[i] <= r[i] <= w[i] + h[i])
    decreases |w| - k
  {
    hide Give;
    if k < |w| {
      var share := Give(h[k], room, remaining);
      GiveBounds(h[k], room, remaining);
      var w' := Given(w, k, 1.0, share);
      if remaining - share >= EPS {
        FillWithinRoom(w', h, room, remaining - share, k + 1);
      }
    }
  }

  lemma {:induction false} SumUpdate(s: seq<real>, k: nat, d: real)
    requires k < |s|
    ensures Sum(s[k := s[k] + d]) == Sum(s) + d
  {
    var t := s[k := s[k] + d];
    if k == |s| - 1 {
      assert t[..k] == s[..k];
    } else {
      assert t[..|s| - 1] == s[..|s| - 1][k := s[k] + d];
      SumUpdate(s[..|s| - 1], k, d);
    }
  }

  lemma {:induction false} FillSum(w: seq<real>, h: seq<real>, room: real, remaining: real, k: nat)
    requires |w| == |h| && k <= |w| && room != 0.0
    ensures Sum(Fill(w, h, room, 1.0, remaining, k)) == Sum(w) + remaining - Left(h, room, remaining, k)
    decreases |w| - k
  {
    hide Give, Sum;
    if k < |w| {
      var share := Give(h[k], room, remaining);
      var w' := Given(w, k, 1.0, share);
      SumUpdate(w, k, 1.0 * share);
      if remaining - share >= EPS {
        FillSum(w', h, room, remaining - share, k + 1);
      }
    }
  }

  /** `remaining / amount <= room / (room + before)`, where `before` is the room of the devices served so far. */
  ghost predicate Covered(remaining: real, room: real, before: real, amount: real) {
    remaining * (room + before) <= amount * room
  }

  lemma HalvingStep(amount: real, room: real, remaining: real, before: real, h: real)
    requires room > 0.0 && h >= 0.0 && before >= 0.0 && remaining >= 0.0
    requires Covered(remaining, room, before, amount)
    ensures Covered(remaining - Part(remaining, h, room), room, before + h, amount)
  {
    var f := h / room;
    DivMono(0.0, h, room);
    assert h == f * room;
    assert (1.0 - f) * (room + (before + h)) == (room + before) - f * (before + h) by {
      assert f * (room + (before + h)) == f * room + f * (before + h);
      assert (1.0 - f) * (room + (before + h)) == (room + (before + h)) - f * (room + (before + h));
    }
    MulMono(0.0, before + h, f);
    MulMono((1.0 - f) * (room + (before + h)), room + before, remaining);
    assert (remaining - remaining * f) * (room + (before + h)) == ((1.0 - f) * (room + (before + h))) * remaining;
  }

  lemma {:induction false} LeftBounds(h: seq<real>, room: real, remaining: real, k: nat)
    requires k <= |h| && Rooming(h, room) && remaining >= 0.0
    ensures 0.0 <= Left(h, room, remaining, k) <= remaining
    decreases |h| - k
  {
    if k < |h| {
      GiveBounds(h[k], room, remaining);
      if remaining - Give(h[k], room, remaining) >= EPS {
        LeftBounds(h, room, remaining - Give(h[k], room, remaining), k + 1);
      }
    }
  }

  lemma Halved(remaining: real, amount: real, room: real)
    requires room > 0.0 && Covered(remaining, room, room, amount)
    ensures remaining <= amount / 2.0
  {
    assert remaining * (room + room) == (2.0 * remaining) * room;
    DivMono((2.0 * remaining) * room, amount * room, room);
    DivOf((2.0 * remaining) * room, room, 2.0 * remaining);
    DivOf(amount * room, room, amount);
  }

  /** When the room covers the amount, at most half of it (or EPS) is left. */
  lemma {:induction false} LeftHalf(h: seq<real>, room: real, amount: real, remaining: real, k: nat)
    requires k <= |h| && Rooming(h, room) && room == Sum(h)
    requires 0.0 <= remaining <= amount <= room
    requires Sum(h[..k]) >= 0.0 && Covered(remaining, room, Sum(h[..k]), amount)
    ensures Left(h, room, remaining, k) <= Max(EPS, amount / 2.0)
    decreases |h| - k
  {
    hide Give, Part, Sum, Covered;
    if k == |h| {
      assert h[..k] == h;
      Halved(remaining, amount, room);
    } else {
      GiveBounds(h[k], room, remaining);
      var rest := remaining - Give(h[k], room, remaining);
      if rest >= EPS {
        SumPrefix(h, k);
        HalvingStep(amount, room, remaining, Sum(h[..k]), h[k]);
        LeftHalf(h, room, amount, rest, k + 1);
      }
    }
  }

  /** The share of the amount that is left when every device from k on takes its part of what remains. */
  function Product(h: seq<real>, room: real, k: nat): real
    requires k <= |h| && room != 0.0
    decreases |h| - k
  {
    if k == |h| then 1.0 else (1.0 - h[k] / room) * Product(h, room, k + 1)
  }

  lemma PartLeaves(remaining: real, h: real, room: real, p: real)
    requires room != 0.0
    ensures (remaining - Part(remaining, h, room)) * p == remaining * ((1.0 - h / room) * p)
  {
    var f := h / room;
    assert (remaining - remaining * f) * p == remaining * ((1.0 - f) * p);
  }

  /** Unless pass 4 stops early, exactly the product of the untaken parts is left. */
  lemma {:induction false} LeftIsProduct(h: seq<real>, room: real, remaining: real, k: nat)
    requires k <= |h| && Rooming(h, room) && 0.0 <= remaining <= room
    ensures Left(h, room, remaining, k) < EPS || Left(h, room, remaining, k) == remaining * Product(h, room, k)
    decreases |h| - k
  {
    hide Part, Give;
    if k < |h| {
      GiveBounds(h[k], room, remaining);
      var rest := remaining - Give(h[k], room, remaining);
      if rest >= EPS {
        LeftIsProduct(h, room, rest, k + 1);
        PartLeaves(remaining, h[k], room, Product(h, room, k + 1));
      }
    }
  }

  // ---- The bound, for every input ----

  lemma ClippedBound(x: seq<real>, max: real)
    requires max >= 0.0
    ensures forall i :: 0 <= i < |x| ==> Abs(Clipped(x, max)[i]) <= max
  {}

  lemma {:induction false} SumNonNegative(h: seq<real>)
    requires NonNegative(h)
    ensures Sum(h) >= 0.0
  {
    if h != [] { SumNonNegative(h[..|h| - 1]); }
  }

  lemma {:induction false} SumCovers(h: seq<real>, i: nat)
    requires NonNegative(h) && i < |h|
    ensures h[i] <= Sum(h)
  {
    var t := h[..|h| - 1];
    SumNonNegative(t);
    if i < |h| - 1 { SumCovers(t, i); }
  }

  lemma HeadroomRooms(x: seq<real>, max: real)
    requires max >= 0.0
    ensures NonNegative(Headroom(x, max))
    ensures Sum(Headroom(x, max)) > EPS ==> Rooming(Headroom(x, max), Sum(Headroom(x, max)))
  {
    var h := Headroom(x, max);
    assert NonNegative(h);
    forall i | 0 <= i < |h| ensures h[i] <= Sum(h) {
      SumCovers(h, i);
    }
  }

  // ---- Mirror image: shares of the other sign are treated alike ----

  lemma ClipMirror(v: real, max: real)
    requires max >= 0.0
    ensures Clip(-v, max) == -Clip(v, max) && Abs(-v) == Abs(v)
  {}

  lemma SumMirror(x: seq<real>)
    ensures Sum(Neg(x)) == -Sum(x)
  {
    SumScale(x, -1.0, Neg(x));
  }

  lemma PassMirror(x: seq<real>, max: real)
    requires max >= 0.0
    ensures Clipped(Neg(x), max) == Neg(Clipped(x, max))
    ensures Excess(Neg(x), max) == Neg(Excess(x, max))
    ensures Sum(Excess(Neg(x), max)) == -Sum(Excess(x, max))
    ensures FreeLoads(Neg(x), max) == FreeLoads(x, max) && FreeFlags(Neg(x), max) == FreeFlags(x, max)
  {
    SumMirror(Excess(x, max));
  }

  lemma SpilledMirror(clipped: real, v: real, max: real, o: real, load: real, count: real)
    ensures Spilled(-clipped, -v, max, -o, load, count) == -Spilled(clipped, v, max, o, load, count)
  {
    var f := FreeShare(v, max, load, count);
    assert FreeShare(-v, max, load, count) == f;
    assert (-o) * f == -(o * f);
  }

  lemma SpreadMirror(x: seq<real>, max: real)
    requires max >= 0.0
    ensures Spread(Neg(x), max) == Neg(Spread(x, max))
  {
    PassMirror(x, max);
    hide Sum, Spilled, FreeLoads, FreeFlags, Excess, Clip;
    var o := Sum(Excess(x, max));
    if Abs(o) > EPS {
      var load, count := Sum(FreeLoads(x, max)), Sum(FreeFlags(x, max));
      forall i | 0 <= i < |x| ensures Spread(Neg(x), max)[i] == -Spread(x, max)[i] {
        ClipMirror(x[i], max);
        SpilledMirror(Clip(x[i], max), x[i], max, o, load, count);
      }
    }
  }

  lemma HeadroomMirror(x: seq<real>, max: real)
    requires max >= 0.0
    ensures Headroom(Neg(x), max) == Headroom(x, max)
  {
    SpreadMirror(x, max);
    hide Spread;
  }

  lemma {:induction false} FillMirror(w: seq<real>, h: seq<real>, room: real, sign: real, remaining: real, k: nat)
    requires |w| == |h| && k <= |w| && room != 0.0
    ensures Fill(Neg(w), h, room, -sign, remaining, k) == Neg(Fill(w, h, room, sign, remaining, k))
    decreases |w| - k
  {
    hide Give;
    if k < |w| {
      var share := Give(h[k], room, remaining);
      var w' := Given(w, k, sign, share);
      assert (-sign) * share == -(sign * share);
      assert Given(Neg(w), k, -sign, share) == Neg(w');
      if remaining - share >= EPS {
        FillMirror(w', h, room, sign, remaining - share, k + 1);
      }
    }
  }

  lemma ToppedMirror(w: seq<real>, h: seq<real>, o2: real)
    requires |w| == |h|
    ensures Topped(Neg(w), h, -o2) == Neg(Topped(w, h, o2))
  {
    hide Sum, Neg, Fill;
    if Abs(o2) > EPS && Sum(h) > EPS {
      FillMirror(w, h, Sum(h), 1.0, Abs(o2), 0);
      FillMirror(w, h, Sum(h), -1.0, Abs(o2), 0);
    }
  }

  /** Reversing every share reverses the result. */
  lemma LimitedMirror(x: seq<real>, max: real)
    requires max >= 0.0
    ensures Limited(Neg(x), max) == Neg(Limited(x, max))
    ensures SecondOverflow(Neg(x), max) == -SecondOverflow(x, max)
  {
    var v := Spread(x, max);
    SpreadMirror(x, max);
    PassMirror(v, max);
    HeadroomMirror(x, max);
    ToppedMirror(Clipped(v, max), Headroom(x, max), SecondOverflow(x, max));
    hide Spread, Headroom, Clipped, Excess, Sum, Neg, Topped;
  }

  lemma LimitedForm(x: seq<real>, max: real)
    requires SecondOverflow(x, max) >= 0.0
    ensures var w, h, o2 := Clipped(Spread(x, max), max), Headroom(x, max), SecondOverflow(x, max);
      Limited(x, max) == if o2 > EPS && Sum(h) > EPS then Fill(w, h, Sum(h), 1.0, o2, 0) else w
  {
    hide Spread, Headroom, Clipped, Excess, Sum, Fill;
  }

  lemma BoundedForm(x: seq<real>, max: real)
    requires max >= 0.0 && SecondOverflow(x, max) >= 0.0
    ensures forall i :: 0 <= i < |x| ==> Abs(Limited(x, max)[i]) <= max
  {
    LimitedForm(x, max);
    hide Spread, Sum, Limited, SecondOverflow;
    var v := Spread(x, max);
    var w, h, o2 := Clipped(v, max), Headroom(x, max), SecondOverflow(x, max);
    ClippedBound(v, max);
    HeadroomRooms(x, max);
    if o2 > EPS && Sum(h) > EPS {
      FillWithinRoom(w, h, Sum(h), o2, 0);
      assert forall i :: 0 <= i < |x| ==> Abs(w[i]) + h[i] <= max;
    }
  }

  /** No device ever gets more than its limit, whatever the shares were. */
  lemma LimitBounds(x: seq<real>, max: real)
    requires max >= 0.0
    ensures forall i :: 0 <= i < |x| ==> Abs(Limited(x, max)[i]) <= max
  {
    if SecondOverflow(x, max) >= 0.0 {
      BoundedForm(x, max);
    } else {
      LimitedMirror(x, max);
      BoundedForm(Neg(x), max);
      hide Limited;
      assert forall i :: 0 <= i < |x| ==> Limited(Neg(x), max)[i] == -Limited(x, max)[i];
    }
  }

  // ---- Accounting ----

  function Shares(x: seq<real>, max: real, load: real, count: real): seq<real> {
    seq(|x|, i requires 0 <= i < |x| => FreeShare(x[i], max, load, count))
  }

  /** Pass 2 hands out the whole overflow whenever some device is free. */
  lemma SharesSum(x: seq<real>, max: real, load: real, count: real)
    requires load == Sum(FreeLoads(x, max)) && count == Sum(FreeFlags(x, max))
    ensures Sum(Shares(x, max, load, count)) == if load > EPS || count > 0.0 then 1.0 else 0.0
  {
    hide Sum;
    var f := Shares(x, max, load, count);
    if load > EPS {
      var k := 1.0 / load;
      assert forall i :: 0 <= i < |x| ==> f[i] == k * FreeLoads(x, max)[i] by {
        forall i | 0 <= i < |x| ensures f[i] == k * FreeLoads(x, max)[i] {
          assert Abs(x[i]) / load == (1.0 / load) * Abs(x[i]);
        }
      }
      SumScale(FreeLoads(x, max), k, f);
    } else if count > 0.0 {
      var k := 1.0 / count;
      SumScale(FreeFlags(x, max), k, f);
    } else {
      SumConst(f, 0.0);
    }
  }

  /** What pass 1 cuts off and nobody takes. */
  function FirstLoss(x: seq<real>, max: real): real {
    var overflow := Sum(Excess(x, max));
    if Abs(overflow) > EPS && (Sum(FreeLoads(x, max)) > EPS || Sum(FreeFlags(x, max)) > 0.0) then 0.0
    else overflow
  }

  /** What pass 3 cuts off and pass 4 does not hand out. */
  function SecondLoss(x: seq<real>, max: real): real {
    var o2, h := SecondOverflow(x, max), Headroom(x, max);
    if Abs(o2) > EPS && Sum(h) > EPS then Signed(o2, Left(h, Sum(h), Abs(o2), 0)) else o2
  }

  function Signed(sign: real, amount: real): real {
    if sign < 0.0 then -amount else amount
  }

  lemma ClippedSum(x: seq<real>, max: real)
    ensures Sum(Clipped(x, max)) + Sum(Excess(x, max)) == Sum(x)
  {
    SumAdd(Clipped(x, max), Excess(x, max), x);
  }

  lemma SpillScaled(o: real, f: real, b: real)
    requires b == o * f
    ensures f == 1.0 ==> b == o
    ensures f == 0.0 ==> b == 0.0
  {}

  lemma SpreadSum(x: seq<real>, max: real)
    ensures Sum(Spread(x, max)) == Sum(x) - FirstLoss(x, max)
  {
    ClippedSum(x, max);
    hide Sum, FreeShare;
    var o := Sum(Excess(x, max));
    if Abs(o) > EPS {
      var load, count := Sum(FreeLoads(x, max)), Sum(FreeFlags(x, max));
      var f := Shares(x, max, load, count);
      var spill := seq(|x|, i requires 0 <= i < |x| => o * f[i]);
      SharesSum(x, max, load, count);
      SumScale(f, o, spill);
      SpillScaled(o, Sum(f), Sum(spill));
      SumAdd(Clipped(x, max), spill, Spread(x, max));
    }
  }

  lemma SharesInRange(v: real, max: real, load: real, count: real)
    ensures FreeShare(v, max, load, count) >= 0.0
    ensures Abs(v) > max ==> FreeShare(v, max, load, count) == 0.0
  {
    if load > EPS {
      DivMono(0.0, Abs(v), load);
    }
  }

  lemma SpilledGrows(clipped: real, v: real, max: real, o: real, load: real, count: real)
    requires o >= 0.0
    ensures clipped <= Spilled(clipped, v, max, o, load, count)
    ensures Abs(v) > max ==> Spilled(clipped, v, max, o, load, count) == clipped
  {
    var f := FreeShare(v, max, load, count);
    SharesInRange(v, max, load, count);
    hide FreeShare;
    MulMono(0.0, f, o);
    SpillScaled(o, f, o * f);
  }

  /** Pass 2 never takes anything away, and leaves the devices pass 1 limited where they are. */
  lemma SpreadGrows(x: seq<real>, max: real)
    requires max >= 0.0 && NonNegative(x)
    ensures forall i :: 0 <= i < |x| ==> Clip(x[i], max) <= Spread(x, max)[i]
    ensures forall i :: 0 <= i < |x| && x[i] > max ==> Spread(x, max)[i] == max
  {
    ExcessNonNegative(x, max);
    hide Sum, Spilled, Excess, FreeLoads, FreeFlags;
    var o, load, count := Sum(Excess(x, max)), Sum(FreeLoads(x, max)), Sum(FreeFlags(x, max));
    forall i | 0 <= i < |x|
      ensures Clip(x[i], max) <= Spread(x, max)[i]
      ensures x[i] > max ==> Spread(x, max)[i] == max
    {
      SpilledGrows(Clip(x[i], max), x[i], max, o, load, count);
    }
  }

  lemma ExcessNonNegative(x: seq<real>, max: real)
    requires max >= 0.0 && NonNegative(x)
    ensures Sum(Excess(x, max)) >= 0.0
  {
    SumNonNegative(Excess(x, max));
  }

  lemma SpreadNonNegative(x: seq<real>, max: real)
    requires max >= 0.0 && NonNegative(x)
    ensures NonNegative(Spread(x, max)) && SecondOverflow(x, max) >= 0.0
  {
    SpreadGrows(x, max);
    hide Spread;
    forall i | 0 <= i < |x| ensures Spread(x, max)[i] >= 0.0 {
      assert Clip(x[i], max) >= 0.0;
    }
    ExcessNonNegative(Spread(x, max), max);
  }

  lemma AccountingForm(x: seq<real>, max: real)
    requires SecondOverflow(x, max) >= 0.0
    ensures Sum(Limited(x, max)) == Sum(x) - FirstLoss(x, max) - SecondLoss(x, max)
  {
    SpreadSum(x, max);
    ClippedSum(Spread(x, max), max);
    LimitedForm(x, max);
    hide Limited, Spread, Sum, Left, Fill, FirstLoss, Headroom, Clipped;
    var o2, h := SecondOverflow(x, max), Headroom(x, max);
    if Abs(o2) > EPS && Sum(h) > EPS {
      FillSum(Clipped(Spread(x, max), max), h, Sum(h), o2, 0);
    }
  }

  lemma LossMirror(x: seq<real>, max: real)
    requires max >= 0.0
    ensures FirstLoss(Neg(x), max) == -FirstLoss(x, max)
    ensures SecondLoss(Neg(x), max) == -SecondLoss(x, max)
  {
    PassMirror(x, max);
    LimitedMirror(x, max);
    HeadroomMirror(x, max);
    hide Sum, Neg, Excess, FreeLoads, FreeFlags, Headroom, SecondOverflow, Left, Clipped, Limited;
  }

  /** Whatever the shares: every watt asked for is delivered or counted as lost in exactly one pass. */
  lemma Accounting(x: seq<real>, max: real)
    requires max >= 0.0
    ensures Sum(Limited(x, max)) == Sum(x) - FirstLoss(x, max) - SecondLoss(x, max)
  {
    if SecondOverflow(x, max) >= 0.0 {
      AccountingForm(x, max);
    } else {
      LimitedMirror(x, max);
      LossMirror(x, max);
      MirroredSum(x, max);
      AccountingForm(Neg(x), max);
    }
  }

  lemma HeadroomAt(x: seq<real>, max: real)
    requires max >= 0.0 && NonNegative(x)
    ensures forall i :: 0 <= i < |x| ==> Headroom(x, max)[i] + Clipped(Spread(x, max), max)[i] == max
  {
    SpreadNonNegative(x, max);
    SpreadGrows(x, max);
    hide Spread, Sum, SecondOverflow;
    var v := Spread(x, max);
    forall i | 0 <= i < |x| ensures Headroom(x, max)[i] + Clipped(v, max)[i] == max {
      assert x[i] > max ==> v[i] == max;
      assert v[i] >= 0.0;
    }
  }

  /** All the room under the limits is either used after pass 3 or open to pass 4. */
  lemma HeadroomSum(x: seq<real>, max: real)
    requires max >= 0.0 && NonNegative(x)
    ensures Sum(Headroom(x, max)) == Times(|x|, max) - Sum(Clipped(Spread(x, max), max))
  {
    HeadroomAt(x, max);
    hide Spread, Sum, Times, Headroom, Clipped, NonNegative;
    var w, h, all := Clipped(Spread(x, max), max), Headroom(x, max), seq(|x|, i => max);
    SumAdd(h, w, all);
    SumConst(all, max);
  }

  /** With room for the whole demand, some device is free whenever pass 1 cuts anything off. */
  lemma SomeoneFree(x: seq<real>, max: real)
    requires max >= 0.0 && NonNegative(x) && Times(|x|, max) >= Sum(x)
    ensures Sum(Excess(x, max)) > 0.0 ==> Sum(FreeFlags(x, max)) > 0.0
  {
    hide Sum;
    if i :| 0 <= i < |x| && x[i] <= max {
      SumCovers(FreeFlags(x, max), i);
    } else {
      SumConst(Clipped(x, max), max);
      ClippedSum(x, max);
    }
  }

  lemma CalmPasses(x: seq<real>, max: real)
    requires max >= 0.0 && Abs(Sum(Excess(x, max))) <= EPS
    ensures SecondOverflow(x, max) == 0.0
  {
    assert Spread(x, max) == Clipped(x, max);
    SumConst(Excess(Clipped(x, max), max), 0.0);
  }

  /** With room for the whole demand, pass 1 can only lose what pass 2 thinks too little to move. */
  lemma FirstLossBound(x: seq<real>, max: real)
    requires max >= 0.0 && NonNegative(x) && Times(|x|, max) >= Sum(x)
    ensures Sum(Excess(x, max)) > EPS ==> FirstLoss(x, max) == 0.0
    ensures Sum(Excess(x, max)) <= EPS ==>
      && FirstLoss(x, max) == Sum(Excess(x, max))
      && SecondOverflow(x, max) == 0.0
  {
    ExcessNonNegative(x, max);
    SomeoneFree(x, max);
    hide Sum, SecondOverflow, Excess, FreeFlags, FreeLoads;
    if Sum(Excess(x, max)) <= EPS {
      CalmPasses(x, max);
    }
  }

  lemma SecondLossBound(x: seq<real>, max: real)
    requires max >= 0.0 && NonNegative(x)
    requires Sum(Spread(x, max)) <= Times(|x|, max)
    ensures SecondLoss(x, max) <= Max(EPS, SecondOverflow(x, max) / 2.0)
  {
    SpreadNonNegative(x, max);
    ClippedSum(Spread(x, max), max);
    HeadroomSum(x, max);
    HeadroomRooms(x, max);
    hide Spread, Headroom, Sum, Left;
    var o2, h := SecondOverflow(x, max), Headroom(x, max);
    assert Sum(h) >= o2;
    if o2 > EPS {
      assert Sum(h[..0]) == 0.0 by { EmptySum(h[..0]); }
      assert Covered(o2, Sum(h), 0.0, o2);
      LeftHalf(h, Sum(h), o2, o2, 0);
    }
  }

  lemma EmptySum(s: seq<real>)
    ensures s == [] ==> Sum(s) == 0.0
  {}

  lemma LossesNonNegative(x: seq<real>, max: real)
    requires max >= 0.0 && NonNegative(x)
    ensures FirstLoss(x, max) >= 0.0 && SecondLoss(x, max) >= 0.0
  {
    ExcessNonNegative(x, max);
    SpreadNonNegative(x, max);
    HeadroomRooms(x, max);
    hide Spread, Headroom, Sum;
    var o2, h := SecondOverflow(x, max), Headroom(x, max);
    if o2 > EPS && Sum(h) > EPS {
      LeftBounds(h, Sum(h), o2, 0);
    }
  }

  function Weighed(gain: real, weight: real): real {
    gain * weight
  }

  lemma FreeGain(v: real, max: real, o: real, load: real, count: real, k: real)
    requires Abs(v) <= max && load > EPS && k == o / load
    ensures Spilled(Clip(v, max), v, max, o, load, count) - v == Weighed(k, Abs(v))
  {
    assert o * (Abs(v) / load) == (o / load) * Abs(v);
  }

  lemma WeighedAlike(k: real, a: real, b: real)
    ensures Weighed(Weighed(k, a), b) == Weighed(Weighed(k, b), a)
  {}

  /** What pass 2 adds to the free devices is in proportion to their assignments, if those sum to something. */
  lemma SpreadByAssignment(x: seq<real>, max: real, i: nat, j: nat)
    requires i < |x| && j < |x| && Abs(x[i]) <= max && Abs(x[j]) <= max
    requires Sum(FreeLoads(x, max)) > EPS
    ensures Weighed(Spread(x, max)[i] - x[i], Abs(x[j])) == Weighed(Spread(x, max)[j] - x[j], Abs(x[i]))
  {
    var o, load, count := Sum(Excess(x, max)), Sum(FreeLoads(x, max)), Sum(FreeFlags(x, max));
    ZeroGains(Abs(x[i]), Abs(x[j]));
    hide Sum, Spilled, Excess, FreeLoads, FreeFlags, Weighed;
    if Abs(o) > EPS {
      var k := o / load;
      FreeGain(x[i], max, o, load, count, k);
      FreeGain(x[j], max, o, load, count, k);
      WeighedAlike(k, Abs(x[i]), Abs(x[j]));
    }
  }

  lemma ZeroGains(a: real, b: real)
    ensures Weighed(0.0, a) == Weighed(0.0, b)
  {}

  // ---- What each device and the whole fleet are served ----

  ghost predicate SameSign(x: seq<real>) {
    NonNegative(x) || NonNegative(Neg(x))
  }

  lemma EachServed(x: seq<real>, max: real)
    requires max >= 0.0 && NonNegative(x)
    ensures forall i :: 0 <= i < |x| ==> Min(x[i], max) <= Limited(x, max)[i]
  {
    SpreadNonNegative(x, max);
    SpreadGrows(x, max);
    LimitedForm(x, max);
    HeadroomRooms(x, max);
    hide Limited, Spread, Sum, SecondOverflow, Headroom;
    var w, h, o2 := Clipped(Spread(x, max), max), Headroom(x, max), SecondOverflow(x, max);
    forall i | 0 <= i < |x| ensures Min(x[i], max) <= w[i] {
      assert Clip(x[i], max) <= Spread(x, max)[i];
    }
    if o2 > EPS && Sum(h) > EPS {
      FillWithinRoom(w, h, Sum(h), o2, 0);
    }
  }

  lemma FleetServed(x: seq<real>, max: real)
    requires max >= 0.0 && NonNegative(x)
    ensures 0.0 <= Sum(Limited(x, max)) <= Sum(x)
    ensures Times(|x|, max) >= Sum(x) ==>
      Sum(x) - Sum(Limited(x, max)) <= Max(EPS, SecondOverflow(x, max) / 2.0)
  {
    Accounting(x, max);
    LossesNonNegative(x, max);
    EachServed(x, max);
    SumNonNegative(Limited(x, max));
    hide Limited, Sum, SecondOverflow, Times, FirstLoss, SecondLoss, Excess;
    if Times(|x|, max) >= Sum(x) {
      FirstLossBound(x, max);
      SpreadSum(x, max);
      if Sum(Excess(x, max)) > EPS {
        SecondLossBound(x, max);
      } else {
        QuietSecondPass(x, max);
      }
    }
  }

  lemma QuietSecondPass(x: seq<real>, max: real)
    ensures SecondOverflow(x, max) == 0.0 ==> SecondLoss(x, max) == 0.0
  {}

  lemma MirroredSum(x: seq<real>, max: real)
    requires max >= 0.0
    ensures Sum(Limited(Neg(x), max)) == -Sum(Limited(x, max)) && Sum(Neg(x)) == -Sum(x)
  {
    LimitedMirror(x, max);
    SumMirror(x);
    SumMirror(Limited(x, max));
  }

  /** For shares of one sign: every device keeps its sign and at least its own share up to the limit, the fleet
      never delivers more than asked, and if the limits have room for the demand then what is missing is at
      most half of what pass 3 cut off (or EPS). */
  lemma LimitServes(x: seq<real>, max: real)
    requires max >= 0.0 && SameSign(x)
    ensures var out := Limited(x, max);
      && (forall i :: 0 <= i < |x| ==> Abs(out[i]) >= Min(Abs(x[i]), max))
      && (NonNegative(x) ==> NonNegative(out)) && (NonNegative(Neg(x)) ==> NonNegative(Neg(out)))
      && Abs(Sum(out)) <= Abs(Sum(x))
      && (Times(|x|, max) >= Abs(Sum(x)) ==>
          Abs(Sum(x)) - Abs(Sum(out)) <= Max(EPS, Abs(SecondOverflow(x, max)) / 2.0))
  {
    hide Limited, Sum, SecondOverflow, Times;
    LimitedMirror(x, max);
    MirroredSum(x, max);
    if NonNegative(x) {
      EachServed(x, max);
      FleetServed(x, max);
    }
    if NonNegative(Neg(x)) {
      EachServed(Neg(x), max);
      FleetServed(Neg(x), max);
      assert forall i :: 0 <= i < |x| ==> Limited(Neg(x), max)[i] == -Limited(x, max)[i];
    }
  }

  // ---- When nothing at all is missing ----

  lemma {:induction false} AloneHasAll(h: seq<real>, k: nat, j: nat)
    requires NonNegative(h) && k < |h| && j < |h| && k != j && h[j] == Sum(h)
    ensures h[k] == 0.0
  {
    var n := |h| - 1;
    SumNonNegative(h[..n]);
    if j < n {
      SumCovers(h[..n], j);
      if k < n { AloneHasAll(h[..n], k, j); }
    } else {
      SumCovers(h[..n], k);
    }
  }

  lemma WholePart(remaining: real, h: real, room: real)
    requires 0.0 <= h <= room && room > 0.0 && remaining > 0.0
    ensures Part(remaining, h, room) == remaining <==> h == room
    ensures h == 0.0 ==> Part(remaining, h, room) == 0.0
  {
    Fraction(h, room);
    var f := h / room;
    if Part(remaining, h, room) == remaining {
      DivOf(remaining * f, remaining, f);
      DivOf(remaining, remaining, 1.0);
    }
  }

  ghost predicate Alone(h: seq<real>, k: nat) {
    exists j :: k <= j < |h| && h[j] == Sum(h)
  }

  /** Pass 4 empties the overflow exactly when one device has all the room. */
  lemma {:induction false} LeftNothing(h: seq<real>, room: real, remaining: real, k: nat)
    requires k <= |h| && Rooming(h, room) && room == Sum(h) && EPS <= remaining <= room
    ensures Left(h, room, remaining, k) == 0.0 <==> Alone(h, k)
    decreases |h| - k
  {
    hide Give, Part, Sum;
    if k < |h| {
      GiveBounds(h[k], room, remaining);
      WholePart(remaining, h[k], room);
      var rest := remaining - Give(h[k], room, remaining);
      if j :| k < j < |h| && h[j] == Sum(h) {
        AloneHasAll(h, k, j);
      }
      if rest >= EPS {
        LeftNothing(h, room, rest, k + 1);
        assert Alone(h, k) <==> Alone(h, k + 1) || h[k] == Sum(h);
      } else {
        assert h[k] == Sum(h) ==> Alone(h, k);
      }
    }
  }

  lemma ServedForward(x: seq<real>, max: real)
    requires max >= 0.0 && NonNegative(x) && Times(|x|, max) >= Sum(x)
    ensures var o, o2 := Sum(Excess(x, max)), SecondOverflow(x, max);
      && o >= 0.0 && o2 >= 0.0
      && (Sum(Limited(x, max)) == Sum(x) <==>
          && (o == 0.0 || o > EPS)
          && (o2 == 0.0 || (o2 > EPS && Alone(Headroom(x, max), 0))))
  {
    Accounting(x, max);
    LossesNonNegative(x, max);
    FirstLossBound(x, max);
    ExcessNonNegative(x, max);
    SpreadNonNegative(x, max);
    hide Limited, Spread, Sum, Times, FirstLoss, SecondLoss, Excess, Alone, SecondOverflow, Headroom;
    QuietSecondPass(x, max);
    if Sum(Excess(x, max)) > EPS {
      SecondLossNothing(x, max);
    }
  }

  /** With room for a demand of one sign, the whole demand is served exactly when pass 1 cut nothing or enough
      to be moved, and pass 3 cut nothing or enough to be moved to a single device holding all the room. */
  lemma ServedExactly(x: seq<real>, max: real)
    requires max >= 0.0 && SameSign(x) && Times(|x|, max) >= Abs(Sum(x))
    ensures var o, o2 := Abs(Sum(Excess(x, max))), Abs(SecondOverflow(x, max));
      Sum(Limited(x, max)) == Sum(x) <==>
      && (o == 0.0 || o > EPS)
      && (o2 == 0.0 || (o2 > EPS && Alone(Headroom(x, max), 0)))
  {
    if NonNegative(x) {
      SumNonNegative(x);
      ServedForward(x, max);
    } else {
      SumNonNegative(Neg(x));
      PassMirror(x, max);
      LimitedMirror(x, max);
      HeadroomMirror(x, max);
      MirroredSum(x, max);
      hide Sum, Neg, Excess, Headroom, SecondOverflow, Limited, Alone, NonNegative, FreeLoads, FreeFlags,
        Clipped, Times;
      ServedForward(Neg(x), max);
    }
  }

  lemma SecondLossNothing(x: seq<real>, max: real)
    requires max >= 0.0 && NonNegative(x) && FirstLoss(x, max) == 0.0 && Times(|x|, max) >= Sum(x)
    ensures var o2 := SecondOverflow(x, max);
      SecondLoss(x, max) == 0.0 <==> o2 == 0.0 || (o2 > EPS && Alone(Headroom(x, max), 0))
  {
    SpreadNonNegative(x, max);
    SpreadSum(x, max);
    ClippedSum(Spread(x, max), max);
    HeadroomSum(x, max);
    HeadroomRooms(x, max);
    hide Spread, Headroom, Sum, Left, Alone, FirstLoss, Times;
    var o2, h := SecondOverflow(x, max), Headroom(x, max);
    if o2 > EPS {
      LeftNothing(h, Sum(h), o2, 0);
    }
  }

  lemma SumFour(a: real, b: real, c: real, d: real)
    ensures Sum([a, b, c, d]) == a + b + c + d
  {
    SumAppend([], a);
    SumAppend([a], b);
    SumAppend([a, b], c);
    SumAppend([a, b, c], d);
    assert [] + [a] == [a] && [a] + [b] == [a, b] && [a, b] + [c] == [a, b, c];
    assert [a, b, c] + [d] == [a, b, c, d];
  }

  lemma ExampleSpread(x: seq<real>)
    requires x == [20.0, 9.0, 1.0, 0.0]
    ensures Spread(x, 10.0) == [10.0, 18.0, 2.0, 0.0]
  {
    hide Sum;
    SumFour(10.0, 0.0, 0.0, 0.0);
    SumFour(0.0, 9.0, 1.0, 0.0);
    assert Excess(x, 10.0) == [10.0, 0.0, 0.0, 0.0];
    assert FreeLoads(x, 10.0) == [0.0, 9.0, 1.0, 0.0];
  }

  /** 30 asked of four devices limited to 10 each: not all of it is served, though 40 would fit. */
  lemma RoomDoesNotSuffice()
    ensures Times(4, 10.0) >= Sum([20.0, 9.0, 1.0, 0.0]) == 30.0
    ensures Sum(Limited([20.0, 9.0, 1.0, 0.0], 10.0)) < 30.0
  {
    hide Sum, Spread, Limited;
    var x := [20.0, 9.0, 1.0, 0.0];
    SumFour(20.0, 9.0, 1.0, 0.0);
    SumFour(0.0, 8.0, 0.0, 0.0);
    SumFour(0.0, 0.0, 8.0, 10.0);
    ExampleSpread(x);
    assert Excess(Spread(x, 10.0), 10.0) == [0.0, 8.0, 0.0, 0.0];
    assert Headroom(x, 10.0) == [0.0, 0.0, 8.0, 10.0];
    ServedExactly(x, 10.0);
    FleetServed(x, 10.0);
  }
}
