/** Whether limiting can reverse two shares: never when the larger is handed out first, nor among three devices. */
module DistributorOrder {
  import opened Numeric
  import opened Distributor
  import opened DistributorLimits

  // ---- Within pass 4 ----

  /** What pass 4 takes with room h, over all the room. */
  lemma GiveGrows(h: real, room: real, remaining: real, less: real)
    requires 0.0 <= h <= room && room > 0.0 && less <= remaining
    ensures Give(h, room, less) <= Give(h, room, remaining)
  {
    Fraction(h, room);
    MulMono(less, remaining, h / room);
  }

  /** The more room a device has, the more of it stays empty. */
  lemma EmptierStaysEmptier(h: real, g: real, room: real, remaining: real)
    requires 0.0 <= h <= g <= room && room > 0.0 && remaining >= 0.0
    ensures h - Give(h, room, remaining) <= g - Give(g, room, remaining)
  {
    var r := remaining / room;
    assert r * room == remaining;
    PartOf(remaining, h, room, r);
    PartOf(remaining, g, room, r);
    hide Part;
    if r <= 1.0 {
      PartsLeft(h, g, r, Part(remaining, h, room), Part(remaining, g, room));
    } else {
      MulMono(1.0, r, h);
      MulMono(1.0, r, g);
    }
  }

  lemma PartsLeft(h: real, g: real, r: real, p: real, q: real)
    requires 0.0 <= h <= g && r <= 1.0 && p == r * h && q == r * g
    ensures p <= h && q <= g && h - p <= g - q
  {
    ProductNonNegative(1.0 - r, h, h - p);
    ProductNonNegative(1.0 - r, g, g - q);
    ProductNonNegative(1.0 - r, g - h, (g - q) - (h - p));
  }

  lemma ProductNonNegative(rest: real, h: real, gap: real)
    requires 0.0 <= rest && 0.0 <= h && gap == rest * h
    ensures 0.0 <= gap
  {}

  lemma PartOf(remaining: real, h: real, room: real, r: real)
    requires room != 0.0 && r * room == remaining
    ensures Part(remaining, h, room) == r * h
  {
    var f := h / room;
    assert f * room == h;
    assert remaining * f == r * (f * room);
  }

  lemma {:induction false} FillCap(w: seq<real>, h: seq<real>, room: real, remaining: real, k: nat)
    requires |w| == |h| && k <= |w| && Rooming(h, room) && remaining >= 0.0
    ensures var r := Fill(w, h, room, 1.0, remaining, k);
      forall j :: k <= j < |r| ==> r[j] <= w[j] + Give(h[j], room, remaining)
    decreases |w| - k
  {
    hide Give;
    forall j | 0 <= j < |h| ensures 0.0 <= Give(h[j], room, remaining) {
      GiveBounds(h[j], room, remaining);
    }
    if k < |w| {
      var share := Give(h[k], room, remaining);
      GiveBounds(h[k], room, remaining);
      var w' := Given(w, k, 1.0, share);
      if remaining - share >= EPS {
        FillWithinRoom(w', h, room, remaining - share, k + 1);
        FillCap(w', h, room, remaining - share, k + 1);
        forall j | k < j < |w|
          ensures Fill(w', h, room, 1.0, remaining - share, k + 1)[j] <= w[j] + Give(h[j], room, remaining)
        {
          GiveGrows(h[j], room, remaining, remaining - share);
        }
      }
    }
  }

  /** Pass 4 keeps the order of two devices of which the fuller comes first. */
  lemma {:induction false} FillOrder(w: seq<real>, h: seq<real>, room: real, remaining: real, k: nat, i: nat, j: nat)
    requires |w| == |h| && k <= i < j < |w| && Rooming(h, room) && remaining >= 0.0
    requires w[i] + h[i] == w[j] + h[j] && w[j] <= w[i]
    ensures var r := Fill(w, h, room, 1.0, remaining, k); r[j] <= r[i]
    decreases |w| - k
  {
    hide Give;
    var share := Give(h[k], room, remaining);
    GiveBounds(h[k], room, remaining);
    var w' := Given(w, k, 1.0, share);
    if k < i {
      if remaining - share >= EPS {
        FillOrder(w', h, room, remaining - share, k + 1, i, j);
      }
    } else {
      EmptierStaysEmptier(h[i], h[j], room, remaining);
      GiveBounds(h[j], room, remaining);
      if remaining - share >= EPS {
        FillWithinRoom(w', h, room, remaining - share, k + 1);
        FillCap(w', h, room, remaining - share, k + 1);
        GiveGrows(h[j], room, remaining, remaining - share);
      }
    }
  }

  lemma SpilledOrder(v: real, u: real, max: real, o: real, load: real, count: real)
    requires 0.0 <= u <= v <= max && 0.0 <= o
    ensures Spilled(Clip(u, max), u, max, o, load, count) <= Spilled(Clip(v, max), v, max, o, load, count)
  {
    if load > EPS {
      DivMono(u, v, load);
    }
    MulMono(FreeShare(u, max, load, count), FreeShare(v, max, load, count), o);
  }

  /** The larger share is still the larger, or as large, after pass 3. */
  lemma ThirdPassOrder(x: seq<real>, max: real, i: nat, j: nat)
    requires max >= 0.0 && NonNegative(x) && i < |x| && j < |x| && x[j] <= x[i]
    ensures Clipped(Spread(x, max), max)[j] <= Clipped(Spread(x, max), max)[i]
  {
    var v := Spread(x, max);
    SpreadGrows(x, max);
    SpreadNonNegative(x, max);
    if x[i] <= max {
      ExcessNonNegative(x, max);
      hide Sum, Spilled, SecondOverflow, Excess, FreeLoads, FreeFlags;
      SpilledOrder(x[i], x[j], max, Sum(Excess(x, max)), Sum(FreeLoads(x, max)), Sum(FreeFlags(x, max)));
      assert v[j] <= v[i];
    } else {
      hide Spread, Sum, SecondOverflow;
      assert v[i] == max;
    }
  }

  lemma LimitOrderForward(x: seq<real>, max: real, i: nat, j: nat)
    requires max >= 0.0 && NonNegative(x) && i <= j < |x| && x[j] <= x[i]
    ensures Limited(x, max)[j] <= Limited(x, max)[i]
  {
    if i < j {
      ThirdPassOrder(x, max, i, j);
      SpreadNonNegative(x, max);
      LimitedForm(x, max);
      HeadroomRooms(x, max);
      HeadroomAt(x, max);
      hide Limited, Spread, Sum, SecondOverflow, Headroom, NonNegative, Clipped;
      var w, h, o2 := Clipped(Spread(x, max), max), Headroom(x, max), SecondOverflow(x, max);
      if o2 > EPS && Sum(h) > EPS {
        FillOrder(w, h, Sum(h), o2, 0, i, j);
      }
    }
  }

  // ---- Fewer than four devices ----

  lemma CalmExcess(x: seq<real>, max: real)
    requires max >= 0.0 && NonNegative(x) && forall k :: 0 <= k < |x| ==> x[k] <= max
    ensures Sum(Excess(x, max)) == 0.0
  {
    SumConst(Excess(x, max), 0.0);
    assert Times(|x|, 0.0) == 0.0;
  }

  /** Pass 3 cuts something off only if pass 1 did, and never at the same device. */
  lemma TwoLimited(x: seq<real>, max: real) returns (p: nat, q: nat)
    requires max >= 0.0 && NonNegative(x) && SecondOverflow(x, max) > 0.0
    ensures p < |x| && q < |x| && p != q && Spread(x, max)[p] > max && x[q] > max
  {
    SpreadNonNegative(x, max);
    SpreadGrows(x, max);
    hide Spread, NonNegative, Excess, Sum;
    var v := Spread(x, max);
    if forall k :: 0 <= k < |x| ==> v[k] <= max {
      CalmExcess(v, max);
      assert false;
    }
    p :| 0 <= p < |x| && v[p] > max;
    if forall k :: 0 <= k < |x| ==> x[k] <= max {
      CalmSpread(x, max);
      assert false;
    }
    q :| 0 <= q < |x| && x[q] > max;
  }

  lemma CalmSpread(x: seq<real>, max: real)
    requires max >= 0.0 && NonNegative(x) && forall k :: 0 <= k < |x| ==> x[k] <= max
    ensures Spread(x, max) == x
  {
    CalmExcess(x, max);
    hide Sum;
    assert Clipped(x, max) == x;
  }

  /** A device at the limit after pass 3 ends there. */
  lemma AtLimit(x: seq<real>, max: real, i: nat)
    requires max >= 0.0 && NonNegative(x) && i < |x| && Clipped(Spread(x, max), max)[i] == max
    ensures Limited(x, max)[i] == max
  {
    SpreadNonNegative(x, max);
    LimitedForm(x, max);
    LimitBounds(x, max);
    HeadroomRooms(x, max);
    hide Limited, Spread, Sum, SecondOverflow, Headroom, NonNegative, Clipped;
    var w, h, o2 := Clipped(Spread(x, max), max), Headroom(x, max), SecondOverflow(x, max);
    if o2 > EPS && Sum(h) > EPS {
      FillWithinRoom(w, h, Sum(h), o2, 0);
    }
  }

  lemma FullAfterThird(x: seq<real>, max: real, k: nat)
    requires max >= 0.0 && NonNegative(x) && k < |x| && (x[k] > max || Spread(x, max)[k] > max)
    ensures Clipped(Spread(x, max), max)[k] == max
  {
    SpreadGrows(x, max);
    hide Spread;
  }

  /** For pass 4 to change the order of two devices, two others must have been limited. */
  lemma FourInvolved(x: seq<real>, max: real, i: nat, j: nat)
    requires max >= 0.0 && NonNegative(x) && i < |x| && j < |x| && i != j && SecondOverflow(x, max) > 0.0
    requires Clipped(Spread(x, max), max)[i] < max && Clipped(Spread(x, max), max)[j] < max
    ensures |x| >= 4
  {
    var p, q := TwoLimited(x, max);
    FullAfterThird(x, max, p);
    FullAfterThird(x, max, q);
    hide Spread, Clipped, SecondOverflow;
  }

  lemma FewKeepOrder(x: seq<real>, max: real, i: nat, j: nat)
    requires max >= 0.0 && NonNegative(x) && i < |x| < 4 && j < |x| && x[j] <= x[i]
    ensures Limited(x, max)[j] <= Limited(x, max)[i]
  {
    ThirdPassOrder(x, max, i, j);
    SpreadNonNegative(x, max);
    LimitBounds(x, max);
    LimitedForm(x, max);
    var w := Clipped(Spread(x, max), max);
    ClippedBound(Spread(x, max), max);
    hide Limited, Spread, Clipped, NonNegative, SecondOverflow, Headroom, Sum, Fill;
    if w[i] == max {
      AtLimit(x, max, i);
    } else if i != j && SecondOverflow(x, max) > 0.0 {
      FourInvolved(x, max, i, j);
    }
  }

  // ---- Four or more devices: a reversal for every pair whose larger share comes last ----

  /** One device far over the limit of 1, i at 0.1, j at 0, all others at the limit. */
  function Reversing(n: nat, q: nat, i: nat, j: nat): seq<real> {
    seq(n, k => if k == q then 2.0 else if k == i then 0.1 else if k == j then 0.0 else 1.0)
  }

  ghost predicate Distinct3(n: nat, q: nat, i: nat, j: nat) {
    q < n && i < n && j < n && q != i && q != j && i != j && 4 <= n
  }

  lemma {:induction false} SumSingle(s: seq<real>, k: nat)
    requires k < |s| && forall m :: 0 <= m < |s| && m != k ==> s[m] == 0.0
    ensures Sum(s) == s[k]
  {
    var zeros := s[k := 0.0];
    SumConst(zeros, 0.0);
    SumUpdate(zeros, k, s[k]);
    assert zeros[k := 0.0 + s[k]] == s && Times(|s|, 0.0) == 0.0;
  }

  /** A sum of equal terms but for three. */
  lemma SumBut3(s: seq<real>, c: real, q: nat, i: nat, j: nat)
    requires Distinct3(|s|, q, i, j)
    requires forall k :: 0 <= k < |s| && k != q && k != i && k != j ==> s[k] == c
    ensures Sum(s) == Times(|s|, c) + (s[q] - c) + (s[i] - c) + (s[j] - c)
  {
    hide Sum;
    var t0 := seq(|s|, k => c);
    var t1 := t0[q := c + (s[q] - c)];
    var t2 := t1[i := c + (s[i] - c)];
    var t3 := t2[j := c + (s[j] - c)];
    SumConst(t0, c);
    SumUpdate(t0, q, s[q] - c);
    SumUpdate(t1, i, s[i] - c);
    SumUpdate(t2, j, s[j] - c);
    assert t3 == s;
  }

  /** What pass 2 adds per unit of assignment: one over what is assigned to the free devices. */
  function Added(n: nat): (u: real)
    requires 4 <= n
    ensures 0.0 < u < 0.91 && (n as real - 2.9) * u == 1.0
  {
    var l := n as real - 2.9;
    MulMono(1.1, l, 1.0 / l);
    1.0 / l
  }

  lemma UnitSpill(v: real, load: real, u: real, count: real)
    requires 0.0 <= v <= 1.0 && load > 1.0 && load * u == 1.0
    ensures Spilled(Clip(v, 1.0), v, 1.0, 1.0, load, count) == v + v * u
  {
    DivOf(v, load, v * u);
  }

  lemma ReversingSums(n: nat, q: nat, i: nat, j: nat)
    requires Distinct3(n, q, i, j)
    ensures Sum(Excess(Reversing(n, q, i, j), 1.0)) == 1.0
    ensures Sum(FreeLoads(Reversing(n, q, i, j), 1.0)) == n as real - 2.9
  {
    var x := Reversing(n, q, i, j);
    hide Sum;
    SumSingle(Excess(x, 1.0), q);
    SumBut3(FreeLoads(x, 1.0), 1.0, q, i, j);
  }

  lemma SpreadAt(x: seq<real>, max: real, o: real, load: real, count: real, k: nat)
    requires k < |x| && o == Sum(Excess(x, max)) && Abs(o) > EPS
    requires load == Sum(FreeLoads(x, max)) && count == Sum(FreeFlags(x, max))
    ensures Spread(x, max)[k] == Spilled(Clip(x[k], max), x[k], max, o, load, count)
  {
    hide Sum, Spilled, Excess, FreeLoads, FreeFlags;
  }

  lemma ReversingSpread(n: nat, q: nat, i: nat, j: nat, k: nat)
    requires Distinct3(n, q, i, j) && k < n
    ensures var x := Reversing(n, q, i, j);
      Spread(x, 1.0)[k] == if k == q then 1.0 else x[k] + x[k] * Added(n)
  {
    var x, load := Reversing(n, q, i, j), n as real - 2.9;
    var count := Sum(FreeFlags(x, 1.0));
    assert x[q] == 2.0 && (k != q ==> 0.0 <= x[k] <= 1.0);
    hide Reversing;
    ReversingSums(n, q, i, j);
    SpreadAt(x, 1.0, 1.0, load, count, k);
    hide Sum, Spread, Spilled, Excess, FreeLoads, FreeFlags, Added;
    if k == q {
      SpilledGrows(1.0, 2.0, 1.0, 1.0, load, count);
    } else {
      UnitSpill(x[k], load, Added(n), count);
    }
  }

  /** The values after pass 2, where u is what it adds per unit of assignment. */
  ghost predicate Spreading(v: seq<real>, u: real, q: nat, i: nat, j: nat) {
    && Distinct3(|v|, q, i, j) && 0.0 < u < 0.91
    && v[q] == 1.0 && v[i] == 0.1 + u / 10.0 && v[j] == 0.0
    && forall k :: 0 <= k < |v| && k != q && k != i && k != j ==> v[k] == 1.0 + u
  }

  lemma ReversingSpreads(n: nat, q: nat, i: nat, j: nat)
    requires Distinct3(n, q, i, j)
    ensures Spreading(Spread(Reversing(n, q, i, j), 1.0), Added(n), q, i, j)
  {
    var x := Reversing(n, q, i, j);
    hide Spread, Added;
    forall k | 0 <= k < n ensures Spread(x, 1.0)[k] == if k == q then 1.0 else x[k] + x[k] * Added(n) {
      ReversingSpread(n, q, i, j, k);
    }
  }

  lemma SpreadingOverflow(v: seq<real>, u: real, q: nat, i: nat, j: nat)
    requires Spreading(v, u, q, i, j) && (|v| as real - 2.9) * u == 1.0
    ensures Sum(Excess(v, 1.0)) == 1.0 - u / 10.0
  {
    hide Sum;
    SumBut3(Excess(v, 1.0), u, q, i, j);
    OverflowOf(|v|, u);
  }

  /** What pass 4 finds. */
  ghost predicate Roomy(w: seq<real>, h: seq<real>, a: real, i: nat, j: nat) {
    && |w| == |h| && i < |w| && j < |w|
    && w[i] == 0.1 + a && w[j] == 0.0 && h[i] == 0.9 - a && h[j] == 1.0
    && forall k :: 0 <= k < |h| && k != i && k != j ==> h[k] == 0.0
  }

  lemma ReversingRoom(x: seq<real>, u: real, q: nat, i: nat, j: nat)
    requires Distinct3(|x|, q, i, j) && x == Reversing(|x|, q, i, j) && Spreading(Spread(x, 1.0), u, q, i, j)
    ensures Roomy(Clipped(Spread(x, 1.0), 1.0), Headroom(x, 1.0), u / 10.0, i, j)
    ensures Sum(Headroom(x, 1.0)) == 1.9 - u / 10.0
  {
    hide Spread, Sum;
    SumBut3(Headroom(x, 1.0), 0.0, q, i, j);
    OverflowOf(|x|, 1.0 / (|x| as real - 2.9));
  }

  lemma OverflowOf(n: nat, u: real)
    requires (n as real - 2.9) * u == 1.0
    ensures Times(n, u) - 3.0 * u == 1.0 - u / 10.0 && Times(n, 0.0) == 0.0
  {}

  /** Devices without room take nothing in pass 4. */
  lemma {:induction false} FillSkips(w: seq<real>, h: seq<real>, room: real, remaining: real, k: nat, m: nat)
    requires |w| == |h| && k <= m <= |w| && room > 0.0 && remaining >= EPS
    requires forall l :: k <= l < m ==> h[l] == 0.0
    ensures Fill(w, h, room, 1.0, remaining, k) == Fill(w, h, room, 1.0, remaining, m)
    decreases m - k
  {
    if k < m {
      NoRoomNoShare(room, remaining);
      hide Give;
      assert Given(w, k, 1.0, 0.0) == w;
      FillSkips(w, h, room, remaining, k + 1, m);
    }
  }

  lemma NoRoomNoShare(room: real, remaining: real)
    requires room > 0.0 && remaining >= 0.0
    ensures Give(0.0, room, remaining) == 0.0
  {}

  /** The first of two devices with room gets about half of what there is, the second a quarter. */
  lemma ReversingShares(a: real)
    requires 0.0 < a < 0.091
    ensures var room, amount := 1.9 - a, 1.0 - a;
      var first := Give(1.0, room, amount);
      && 0.5 < first && amount - first >= EPS && 0.1 + a + Give(0.9 - a, room, amount - first) < 0.5
  {
    var room, amount := 1.9 - a, 1.0 - a;
    var t := 1.0 / room;
    assert t * room == 1.0;
    MulMono(0.525, t, room);
    MulMono(t, 0.553, room);
  }

  lemma RoomyFill(w: seq<real>, h: seq<real>, a: real, i: nat, j: nat)
    requires Roomy(w, h, a, i, j) && j < i && 0.0 < a < 0.091 && Rooming(h, 1.9 - a)
    ensures var r := Fill(w, h, 1.9 - a, 1.0, 1.0 - a, 0); r[i] < r[j]
  {
    var room, amount := 1.9 - a, 1.0 - a;
    ReversingShares(a);
    FillSkips(w, h, room, amount, 0, j);
    hide Give;
    var first := Give(1.0, room, amount);
    var w' := Given(w, j, 1.0, first);
    assert Fill(w, h, room, 1.0, amount, j) == Fill(w', h, room, 1.0, amount - first, j + 1);
    FillWithinRoom(w', h, room, amount - first, j + 1);
    FillCap(w', h, room, amount - first, j + 1);
  }

  lemma RoomyEnds(x: seq<real>, a: real, i: nat, j: nat)
    requires NonNegative(x) && j < i < |x| && 0.0 < a < 0.091
    requires Roomy(Clipped(Spread(x, 1.0), 1.0), Headroom(x, 1.0), a, i, j)
    requires Sum(Headroom(x, 1.0)) == 1.9 - a && SecondOverflow(x, 1.0) == 1.0 - a
    ensures Limited(x, 1.0)[i] < Limited(x, 1.0)[j]
  {
    hide Limited, Spread, Headroom, Clipped, Sum, SecondOverflow, Fill, NonNegative, Rooming, Roomy;
    HeadroomRooms(x, 1.0);
    LimitedForm(x, 1.0);
    RoomyFill(Clipped(Spread(x, 1.0), 1.0), Headroom(x, 1.0), a, i, j);
  }

  /** An index other than these two. */
  function Spare(i: nat, j: nat): nat {
    if i != 0 && j != 0 then 0 else if i != 1 && j != 1 then 1 else 2
  }

  /** For four devices or more, and the larger of two shares handed out last: it can end below the smaller. */
  lemma Reverses(n: nat, i: nat, j: nat) returns (x: seq<real>)
    requires 4 <= n && j < i < n
    ensures |x| == n && NonNegative(x) && x[j] < x[i] && Limited(x, 1.0)[i] < Limited(x, 1.0)[j]
  {
    var q := Spare(i, j);
    x := Reversing(n, q, i, j);
    assert NonNegative(x) && x[j] < x[i] && Distinct3(n, q, i, j);
    hide Reversing;
    var u := Added(n);
    ReversingSpreads(n, q, i, j);
    hide Added, Spread;
    SpreadingOverflow(Spread(x, 1.0), u, q, i, j);
    ReversingRoom(x, u, q, i, j);
    hide *;
    RoomyEnds(x, u / 10.0, i, j);
  }

  // ---- Both together ----

  /** Limiting never reverses the shares of devices i and j in a fleet of n, for shares of one sign. */
  ghost predicate KeepsOrder(n: nat, i: nat, j: nat)
    requires i < n && j < n
  {
    forall x: seq<real>, max: real | |x| == n && max >= 0.0 && SameSign(x) && Abs(x[j]) <= Abs(x[i]) ::
      Abs(Limited(x, max)[j]) <= Abs(Limited(x, max)[i])
  }

  lemma ForwardKeepsOrder(x: seq<real>, max: real, i: nat, j: nat)
    requires max >= 0.0 && NonNegative(x) && i < |x| && j < |x| && (i <= j || |x| < 4) && x[j] <= x[i]
    ensures Limited(x, max)[j] <= Limited(x, max)[i]
  {
    if i <= j {
      LimitOrderForward(x, max, i, j);
    } else {
      FewKeepOrder(x, max, i, j);
    }
  }

  lemma LimitKeepsOrder(x: seq<real>, max: real, i: nat, j: nat)
    requires max >= 0.0 && SameSign(x) && i < |x| && j < |x| && (i <= j || |x| < 4) && Abs(x[j]) <= Abs(x[i])
    ensures Abs(Limited(x, max)[j]) <= Abs(Limited(x, max)[i])
  {
    LimitServes(x, max);
    hide Limited;
    if NonNegative(x) {
      ForwardKeepsOrder(x, max, i, j);
    } else {
      LimitedMirror(x, max);
      ForwardKeepsOrder(Neg(x), max, i, j);
      assert Limited(Neg(x), max)[i] == -Limited(x, max)[i] && Limited(Neg(x), max)[j] == -Limited(x, max)[j];
    }
  }

  /** The order of two shares is kept whatever the shares and the limit exactly when the larger is handed out first or
      there are fewer than four devices. */
  lemma KeepsOrderIff(n: nat, i: nat, j: nat)
    requires i < n && j < n
    ensures KeepsOrder(n, i, j) <==> i <= j || n < 4
  {
    hide Limited;
    if i <= j || n < 4 {
      forall x: seq<real>, max: real | |x| == n && max >= 0.0 && SameSign(x) && Abs(x[j]) <= Abs(x[i])
        ensures Abs(Limited(x, max)[j]) <= Abs(Limited(x, max)[i])
      {
        LimitKeepsOrder(x, max, i, j);
      }
    } else {
      var x := Reverses(n, i, j);
      LimitServes(x, 1.0);
      assert Abs(x[j]) <= Abs(x[i]) && Abs(Limited(x, 1.0)[i]) < Abs(Limited(x, 1.0)[j]);
    }
  }
}
