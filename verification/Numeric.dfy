/** Real and integer helpers shared by every component. Floats are modelled as `real`. */
module Numeric {

  datatype Option<+T> = None | Some(value: T) {
    function GetOr(default: T): T {
      if None? then default else value
    }
  }

  function Abs(x: real): real {
    if x < 0.0 then -x else x
  }

  function Max(x: real, y: real): real {
    if x < y then y else x
  }

  function Min(x: real, y: real): real {
    if y < x then y else x
  }

  function Clamp(x: real, lo: real, hi: real): real {
    Max(lo, Min(hi, x))
  }

  function ClampInt(x: int, lo: int, hi: int): int {
    var y := if hi < x then hi else x;
    if lo < y then y else lo
  }

  function Ceil(x: real): int {
    -((-x).Floor)
  }

  /** Python's `round`: to the nearest integer, ties to the even one. */
  function Round(x: real): int {
    var f := x.Floor;
    var d := x - f as real;
    if d < 0.5 || (d == 0.5 && f % 2 == 0) then f else f + 1
  }

  /** At most one half away, and even if exactly that. */
  lemma RoundNearest(x: real)
    ensures 2.0 * Abs(x - Round(x) as real) <= 1.0
    ensures 2.0 * Abs(x - Round(x) as real) == 1.0 ==> Round(x) % 2 == 0
  {}

  /** The sum of a sequence, added from the left as Python's `sum` does. */
  function Sum(s: seq<real>): real {
    if s == [] then 0.0 else Sum(s[..|s| - 1]) + s[|s| - 1]
  }

  lemma SumAppend(s: seq<real>, x: real)
    ensures Sum(s + [x]) == Sum(s) + x
  {
    assert (s + [x])[..|s|] == s;
  }

  lemma SumPrefix(s: seq<real>, i: nat)
    requires i < |s|
    ensures Sum(s[..i + 1]) == Sum(s[..i]) + s[i]
  {
    assert s[..i + 1][..i] == s[..i];
  }

  // ---- Sums of sequences related element by element ----

  lemma {:induction false} SumAdd(a: seq<real>, b: seq<real>, c: seq<real>)
    requires |a| == |b| == |c| && forall i :: 0 <= i < |c| ==> c[i] == a[i] + b[i]
    ensures Sum(c) == Sum(a) + Sum(b)
  {
    if c != [] { SumAdd(a[..|a| - 1], b[..|b| - 1], c[..|c| - 1]); }
  }

  lemma {:induction false} SumScale(a: seq<real>, k: real, b: seq<real>)
    requires |a| == |b| && forall i :: 0 <= i < |b| ==> b[i] == k * a[i]
    ensures Sum(b) == k * Sum(a)
  {
    if b != [] {
      SumScale(a[..|a| - 1], k, b[..|b| - 1]);
      assert k * (Sum(a[..|a| - 1]) + a[|a| - 1]) == k * Sum(a[..|a| - 1]) + k * a[|a| - 1];
    }
  }

  lemma {:induction false} SumMono(a: seq<real>, b: seq<real>)
    requires |a| == |b| && forall i :: 0 <= i < |b| ==> a[i] <= b[i]
    ensures Sum(a) <= Sum(b)
  {
    if b != [] { SumMono(a[..|a| - 1], b[..|b| - 1]); }
  }

  /** n times k. */
  function Times(n: nat, k: real): real {
    n as real * k
  }

  lemma TimesNext(n: nat, k: real)
    ensures Times(n + 1, k) == Times(n, k) + k && Times(0, k) == 0.0 && Times(1, k) == k
  {}

  lemma {:induction false} SumConst(a: seq<real>, k: real)
    requires forall i :: 0 <= i < |a| ==> a[i] == k
    ensures Sum(a) == Times(|a|, k)
  {
    if a != [] {
      SumConst(a[..|a| - 1], k);
      assert |a| as real * k == (|a| - 1) as real * k + k;
    }
  }

  // ---- Nonlinear steps, one at a time ----

  lemma MulMono(x: real, y: real, k: real)
    ensures x <= y && 0.0 <= k ==> x * k <= y * k
  {}

  lemma MulStrict(x: real, y: real, k: real)
    ensures x < y && 0.0 < k ==> x * k < y * k
  {}

  lemma DivMono(x: real, y: real, k: real)
    requires k > 0.0
    ensures x <= y ==> x / k <= y / k
  {
    MulMono(x, y, 1.0 / k);
    assert x / k == x * (1.0 / k) && y / k == y * (1.0 / k);
  }

  lemma CastMul(a: int, b: int)
    ensures (a * b) as real == a as real * b as real
  {}

  lemma DivOf(x: real, k: real, y: real)
    requires k != 0.0 && x == k * y
    ensures x / k == y
  {}

  lemma MulMonoInt(x: int, y: int, k: int)
    ensures x <= y && 0 <= k ==> x * k <= y * k
  {}

  lemma DivExact(a: int, b: int, c: int)
    requires 0 < b && a == b * c
    ensures a / b == c && a % b == 0
  {
    var d := a / b;
    MulMonoInt(d + 1, c, b);
    MulMonoInt(c + 1, d, b);
  }
}
