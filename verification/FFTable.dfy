/** The feed-forward table: bins, interpolated reads, and migration between bin widths. */
module FFTable {
  import opened Numeric

  /** Bin index to factor; index i stands for i * step percent of rated power. */
  type Table = map<int, real>

  function BinCount(step: int): int
    requires 0 < step
  {
    100 / step
  }

  function Fresh(step: int): Table
    requires 0 < step
  {
    var n := BinCount(step);
    map i: int | -n <= i <= n && InBins(i, n) :: 1.0
  }

  predicate InBins(i: int, n: int) {
    -n <= i <= n
  }

  ghost predicate Full(t: Table, n: int) {
    forall i :: i in t <==> InBins(i, n)
  }

  function Bin(t: Table, i: int): real {
    if i in t then t[i] else 1.0
  }

  /** Where a power falls on the bin axis, before rounding. */
  function Position(rated: real, step: int, power: real): real
    requires rated > 0.0 && 0 < step
  {
    power / rated * 100.0 / step as real
  }

  function BinIndex(rated: real, step: int, power: real): int
    requires rated > 0.0 && 0 < step
  {
    ClampInt(Round(Position(rated, step, power)), -BinCount(step), BinCount(step))
  }

  function ReadAt(t: Table, n: int, pos: real): real {
    var lo := ClampInt(pos.Floor, -n, n);
    var hi := ClampInt(Ceil(pos), -n, n);
    if lo == hi then Bin(t, lo)
    else
      var frac := pos - lo as real;
      Bin(t, lo) * (1.0 - frac) + Bin(t, hi) * frac
  }

  function Read(t: Table, rated: real, step: int, power: real): real
    requires rated > 0.0 && 0 < step
  {
    ReadAt(t, BinCount(step), Position(rated, step, power))
  }

  /** One bin of a table stored with another width: `ratio` is the stored width over the current one. */
  function MigratedBin(data: Table, ratio: real, i: int, current: real): real
    requires ratio > 0.0
  {
    var oldPos := i as real / ratio;
    var lo := oldPos.Floor;
    var hi := Ceil(oldPos);
    if lo == hi then
      if lo in data then data[lo] else current
    else if lo in data && hi in data then
      var frac := oldPos - lo as real;
      data[lo] * (1.0 - frac) + data[hi] * frac
    else current
  }

  function AbsIndex(i: int): nat {
    if i < 0 then -i else i
  }

  ghost predicate IsMaxIndex(data: Table, m: nat) {
    && (exists i :: i in data && AbsIndex(i) == m)
    && (forall i :: i in data ==> AbsIndex(i) <= m)
  }

  /** The table after loading `data`, whose largest index is `fileMax`, over `current`. */
  function Loaded(step: int, current: Table, data: Table, fileMax: nat): (r: Table)
    requires 0 < step && fileMax <= 100
    ensures r.Keys == current.Keys
  {
    if fileMax != BinCount(step) && fileMax > 0 then
      var ratio := (100 / fileMax) as real / step as real;
      map i | i in current :: MigratedBin(data, ratio, i, current[i])
    else
      Overlaid(current, data)
  }

  /** Known bins take the given factors; indices outside the table are ignored. */
  function Overlaid(current: Table, data: Table): (r: Table)
    ensures r.Keys == current.Keys
  {
    map i | i in current :: if i in data then data[i] else current[i]
  }

  // ---- Interpolation ----

  lemma FloorIs(x: real, a: int)
    requires a as real <= x < (a + 1) as real
    ensures x.Floor == a
  {}

  lemma LineForm(lo: real, hi: real, frac: real)
    ensures lo * (1.0 - frac) + hi * frac == lo + (hi - lo) * frac
  {}

  /** Inside a cell of the table the read is the straight line through its two ends. */
  lemma ReadOnCell(t: Table, n: int, a: int, x: real)
    requires -n <= a < n
    requires a as real <= x <= (a + 1) as real
    ensures ReadAt(t, n, x) == Bin(t, a) + (Bin(t, a + 1) - Bin(t, a)) * (x - a as real)
  {
    if x == (a + 1) as real {
      assert x.Floor == a + 1 && Ceil(x) == a + 1;
    } else if x == a as real {
      assert x.Floor == a && Ceil(x) == a;
    } else {
      ReadBetween(t, n, a, x);
      LineForm(Bin(t, a), Bin(t, a + 1), x - a as real);
    }
  }

  lemma ReadBetween(t: Table, n: int, a: int, x: real)
    requires -n <= a < n
    requires a as real < x < (a + 1) as real
    ensures ReadAt(t, n, x) == Bin(t, a) * (1.0 - (x - a as real)) + Bin(t, a + 1) * (x - a as real)
  {
    hide Bin;
    FloorIs(x, a);
    FloorIs(-x, -a - 1);
    assert ClampInt(x.Floor, -n, n) == a && ClampInt(Ceil(x), -n, n) == a + 1;
  }

  /** Beyond the last bin the read saturates at the end bin. */
  lemma ReadSaturates(t: Table, n: int, x: real)
    requires 0 <= n
    ensures x >= n as real ==> ReadAt(t, n, x) == Bin(t, n)
    ensures x <= -(n as real) ==> ReadAt(t, n, x) == Bin(t, -n)
  {
    if x >= n as real {
      assert x.Floor >= n && Ceil(x) >= n;
    }
    if x <= -(n as real) {
      assert x.Floor <= -n && Ceil(x) <= -n;
    }
  }

  // ---- Migration ----

  /** A migrated bin samples the stored interpolant at its own percentage; a bin beyond the stored
      range keeps its current value. `oldStep` is the width the code recovers from the file. */
  lemma MigratedBinSamples(data: Table, fileMax: int, oldStep: int, step: int, i: int, current: real)
    requires 0 < step && 0 < oldStep && 0 < fileMax && Full(data, fileMax)
    ensures var pos := i as real / (oldStep as real / step as real);
            MigratedBin(data, oldStep as real / step as real, i, current)
            == if -(fileMax as real) <= pos <= fileMax as real then ReadAt(data, fileMax, pos) else current
  {
    var pos := i as real / (oldStep as real / step as real);
    if -(fileMax as real) <= pos <= fileMax as real {
    } else if pos > fileMax as real {
      assert pos.Floor >= fileMax && Ceil(pos) > fileMax;
    } else {
      assert pos.Floor < -fileMax && Ceil(pos) <= -fileMax;
    }
  }

  /** The stored table sampled k times as finely; m bins a side instead of n. */
  ghost predicate Refines(fine: Table, data: Table, m: int, n: int, k: int)
    requires 0 < k
  {
    forall i {:trigger fine[i]} {:trigger i in fine} :: -m <= i <= m ==>
      i in fine && fine[i] == ReadAt(data, n, i as real / k as real)
  }

  lemma RefinedReadInside(fine: Table, data: Table, m: int, n: int, i: int, a: int, q: real,
                          x: real, y: real, z: real)
    requires -m <= i < m && i as real <= q < (i + 1) as real && -n <= a < n
    requires a as real <= x <= z <= y <= (a + 1) as real && z - x == (q - i as real) * (y - x)
    requires Bin(fine, i) == ReadAt(data, n, x) && Bin(fine, i + 1) == ReadAt(data, n, y)
    ensures ReadAt(fine, m, q) == ReadAt(data, n, z)
  {
    hide ReadAt;
    ReadOnCell(data, n, a, x);
    ReadOnCell(data, n, a, y);
    ReadOnCell(data, n, a, z);
    ReadOnCell(fine, m, i, q);
    LineThrough(Bin(data, a), Bin(data, a + 1) - Bin(data, a), a as real, x, y, z, q - i as real,
                ReadAt(data, n, x), ReadAt(data, n, y), ReadAt(data, n, z));
  }

  lemma RefinedRead(fine: Table, data: Table, m: int, n: int, k: int, q: real)
    requires 0 < k && 0 < n && 0 < m && m == k * n && Refines(fine, data, m, n, k)
    ensures ReadAt(fine, m, q) == ReadAt(data, n, q / k as real)
  {
    hide ReadAt;
    Quotient(m, k, n);
    Quotient(-m, k, -n);
    if q >= m as real {
      DivMono(m as real, q, k as real);
      assert -m <= m && m in fine && fine[m] == ReadAt(data, n, n as real);
      ReadSaturates(fine, m, q);
      ReadSaturates(data, n, q / k as real);
      ReadSaturates(data, n, n as real);
    } else if q < -(m as real) {
      DivMono(q, -(m as real), k as real);
      ReadSaturates(fine, m, q);
      ReadSaturates(data, n, q / k as real);
      ReadSaturates(data, n, -(n as real));
    } else {
      var i := q.Floor;
      CellOf(i, k, m, n);
      DivMono(i as real, q, k as real);
      DivMono(q, (i + 1) as real, k as real);
      Fractions(i as real, q, k as real);
      assert i in fine && i + 1 in fine && Bin(fine, i) == fine[i] && Bin(fine, i + 1) == fine[i + 1];
      RefinedReadInside(fine, data, m, n, i, i / k, q, i as real / k as real, (i + 1) as real / k as real,
        q / k as real);
    }
  }

  /** Loading a full stored table into a finer width, both widths dividing 100, leaves every
      interpolated read unchanged, the saturated ends included. */
  lemma RefiningPreservesReads(data: Table, current: Table, rated: real, oldStep: int, step: int, power: real)
    requires rated > 0.0 && 0 < step && 0 < oldStep && oldStep % step == 0 && 100 % oldStep == 0
    requires Full(data, BinCount(oldStep)) && Full(current, BinCount(step))
    ensures IsMaxIndex(data, BinCount(oldStep))
    ensures var migrated := Loaded(step, current, data, BinCount(oldStep));
            && Full(migrated, BinCount(step))
            && Read(migrated, rated, step, power) == Read(data, rated, oldStep, power)
  {
    hide ReadAt, Loaded;
    var k, n, m := oldStep / step, BinCount(oldStep), BinCount(step);
    Widths(oldStep, step, k);
    assert InBins(n, n) && AbsIndex(n) == n;
    var migrated := Loaded(step, current, data, n);
    forall i | -m <= i <= m
      ensures i in migrated && migrated[i] == ReadAt(data, n, i as real / k as real)
    {
      assert InBins(i, m);
      LoadedRefined(data, current, oldStep, step, k, i);
    }
    var q := Position(rated, step, power);
    RefinedRead(migrated, data, m, n, k, q);
    Rescaled(power / rated * 100.0, oldStep as real, step as real, k as real);
  }

  lemma LoadedRefined(data: Table, current: Table, oldStep: int, step: int, k: int, i: int)
    requires 0 < step && 0 < k && oldStep == step * k && 100 % oldStep == 0 && i in current
    requires Full(data, BinCount(oldStep)) && Full(current, BinCount(step))
    ensures Loaded(step, current, data, BinCount(oldStep))[i] == ReadAt(data, BinCount(oldStep), i as real / k as real)
  {
    var n, m := BinCount(oldStep), BinCount(step);
    Widths(oldStep, step, k);
    assert InBins(i, m);
    Quotient(m, k, n);
    Quotient(-m, k, -n);
    DivMono(i as real, m as real, k as real);
    DivMono(-(m as real), i as real, k as real);
    if n != m {
      MigratedBinSamples(data, n, oldStep, step, i, current[i]);
    } else {
      assert InBins(i, n);
    }
  }

  /** Loading into a coarser width keeps the stored factor at every bin that is kept. */
  lemma CoarseningKeepsNodes(data: Table, current: Table, oldStep: int, k: int, i: int)
    requires 0 < oldStep && 0 < k && 100 % (oldStep * k) == 0 && 0 < oldStep * k
    requires Full(data, BinCount(oldStep)) && Full(current, BinCount(oldStep * k))
    requires i in current
    ensures i * k in data
    ensures Loaded(oldStep * k, current, data, BinCount(oldStep))[i] == data[i * k]
  {
    var step := oldStep * k;
    var m, n := BinCount(step), BinCount(oldStep);
    Widths(step, oldStep, k);
    assert InBins(i, m);
    Within(i, m, k, n);
    assert InBins(i * k, n);
    if n != m {
      CoarseRatio(oldStep, step, k, i);
    }
  }

  // ---- Arithmetic ----

  lemma Quotient(m: int, k: int, n: int)
    requires 0 < k && (m == k * n || -m == k * -n)
    ensures m as real / k as real == n as real
  {
    CastMul(k, n);
    DivOf(m as real, k as real, n as real);
  }

  /** The cell of the coarse axis that holds fine cell i. */
  lemma CellOf(i: int, k: int, m: int, n: int)
    requires 0 < k && m == k * n && -m <= i < m
    ensures var a := i / k;
            && -n <= a < n
            && a as real <= i as real / k as real
            && (i + 1) as real / k as real <= (a + 1) as real
  {
    var a := i / k;
    CellBounds(i, k, a, m, n);
    CellEnd(k * a, i, k, a);
    CellEnd(i + 1, k * (a + 1), k, a + 1);
  }

  lemma CellBounds(i: int, k: int, a: int, m: int, n: int)
    requires 0 < k && a == i / k && m == k * n && -m <= i < m
    ensures -n <= a < n && k * a <= i && i + 1 <= k * (a + 1)
  {
    assert i == a * k + i % k;
    MulMonoInt(n, a, k);
    MulMonoInt(a + 1, -n, k);
  }

  lemma CellEnd(x: int, y: int, k: int, a: int)
    requires 0 < k && x <= y
    ensures x == k * a ==> a as real <= y as real / k as real
    ensures y == k * a ==> x as real / k as real <= a as real
  {
    DivMono(x as real, y as real, k as real);
    Quotient(k * a, k, a);
  }

  lemma Fractions(i: real, q: real, k: real)
    requires k > 0.0
    ensures q / k - i / k == (q - i) * ((i + 1.0) / k - i / k)
  {
    var r := 1.0 / k;
    assert q / k == q * r && i / k == i * r && (i + 1.0) / k == i * r + r;
  }

  /** A line read through two of its own points is the same line. */
  lemma LineThrough(d: real, g: real, a: real, x: real, y: real, z: real, f: real, rx: real, ry: real, rz: real)
    requires z - x == f * (y - x)
    requires rx == d + g * (x - a) && ry == d + g * (y - a) && rz == d + g * (z - a)
    ensures rx + (ry - rx) * f == rz
  {
    assert ry - rx == g * (y - x);
    assert g * (y - x) * f == g * (z - x);
  }

  lemma Rescaled(pct: real, oldStep: real, step: real, k: real)
    requires step > 0.0 && k > 0.0 && oldStep == step * k
    ensures oldStep > 0.0 && pct / step / k == pct / oldStep
  {
    var p := pct / step / k;
    assert p * k == pct / step;
    assert p * k * step == pct;
    assert p * oldStep == pct;
  }

  /** Two widths that divide 100, one a multiple of the other. */
  lemma Widths(wide: int, narrow: int, k: int)
    requires 0 < narrow && 0 < wide && 100 % wide == 0
    requires (k == wide / narrow && wide % narrow == 0) || wide == narrow * k
    ensures 0 < k && wide == narrow * k
    ensures 100 % narrow == 0 && BinCount(narrow) == k * BinCount(wide)
    ensures 0 < BinCount(wide) <= BinCount(narrow) <= 100
    ensures 100 / BinCount(wide) == wide && 100 / BinCount(narrow) == narrow
    ensures wide as real / narrow as real == k as real
    ensures BinCount(wide) == BinCount(narrow) ==> k == 1
  {
    assert wide == narrow * k;
    var n := BinCount(wide);
    assert 100 == wide * n;
    MulMonoInt(k, 0, narrow);
    MulMonoInt(n, 0, wide);
    assert 100 == narrow * (k * n);
    DivExact(100, narrow, k * n);
    DivExact(100, n, wide);
    MulMonoInt(1, k, n);
    MulMonoInt(2, k, n);
    DivExact(100, k * n, narrow);
    Quotient(wide, narrow, k);
  }

  lemma Within(i: int, m: int, k: int, n: int)
    requires 0 < k && n == k * m && -m <= i <= m
    ensures -n <= i * k <= n
  {
    MulMonoInt(i, m, k);
    MulMonoInt(-m, i, k);
  }

  lemma CoarseRatio(oldStep: int, step: int, k: int, i: int)
    requires 0 < oldStep && 0 < k && step == oldStep * k
    ensures 0 < step && oldStep as real / step as real > 0.0
    ensures i as real / (oldStep as real / step as real) == (i * k) as real
  {
    CastMul(oldStep, k);
    CastMul(i, k);
    var o, r, kk := oldStep as real, oldStep as real / step as real, k as real;
    MulMonoInt(1, k, oldStep);
    assert r * (step as real) == o;
    assert r * kk == 1.0;
    DivOf(i as real, r, (i * k) as real);
  }

  /** When the stored width does not divide 100 the code cannot always tell it from the largest
      index: 13 percent has 7 bins a side, which reads back as 14 percent. The recovered width is the
      stored one exactly when no wider one has that many bins. */
  lemma RecoveredStep(oldStep: int)
    requires 0 < oldStep <= 100
    ensures 100 / BinCount(oldStep) == oldStep <==> 100 / (oldStep + 1) < BinCount(oldStep)
    ensures 100 / BinCount(13) == 14
  {
    WidestWith(oldStep, BinCount(oldStep), 100 / BinCount(oldStep), 100 / (oldStep + 1));
  }

  lemma WidestWith(s: int, n: int, w: int, m: int)
    requires 0 < s && n == 100 / s && 0 < n && w == 100 / n && m == 100 / (s + 1)
    ensures w == s <==> m < n
  {
    Remainder(s, n);
    Remainder(n, w);
    Remainder(s + 1, m);
    MulMonoInt(w + 1, s, n);
    MulMonoInt(s + 1, w, n);
    MulMonoInt(m + 1, n, s + 1);
    MulMonoInt(n, m, s + 1);
  }

  lemma Remainder(b: int, q: int)
    requires 0 < b && q == 100 / b
    ensures q * b <= 100 < (q + 1) * b
  {}
}
