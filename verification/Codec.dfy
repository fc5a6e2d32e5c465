/** Integers in 16-bit Modbus registers: packed to bytes in the byte order, cut into words in that same order,
    and the words put in register order. MODBUS Application Protocol Specification V1.1b3, section 4.2: the
    most significant byte of a register is sent first. */
module Codec {
  import opened Numeric

  datatype ByteOrder = BigEndian | LittleEndian
  datatype RegisterOrder = HighFirst | LowFirst

  /** Int16, UInt16, Int32, UInt32, Int64 and UInt64 are the types with 1, 2 and 4 words. */
  datatype IntType = IntType(words: nat, signed: bool) {
    ghost predicate Valid() {
      words == 1 || words == 2 || words == 4
    }

    function Min(): int {
      if signed then -(Pow(65536, words) / 2) else 0
    }

    function Max(): int {
      if signed then Pow(65536, words) / 2 - 1 else Pow(65536, words) - 1
    }

    predicate InRange(v: int) {
      Min() <= v <= Max()
    }
  }

  function Pow(base: nat, n: nat): (r: nat)
    ensures base > 0 ==> r > 0
  {
    if n == 0 then 1 else Scale(base, Pow(base, n - 1))
  }

  // ---- Numbers as digits, least significant first ----

  function Digit(v: nat, base: nat): (r: nat)
    requires base > 0
    ensures r < base
  {
    v % base
  }

  function Shift(v: nat, base: nat): nat
    requires base > 0
  {
    v / base
  }

  function Scale(base: nat, x: nat): nat {
    base * x
  }

  function Digits(base: nat, v: nat, n: nat): (r: seq<nat>)
    requires base > 0
    ensures |r| == n && Below(base, r)
    decreases n
  {
    if n == 0 then [] else [Digit(v, base)] + Digits(base, Shift(v, base), n - 1)
  }

  function FromDigits(base: nat, d: seq<nat>): nat {
    if d == [] then 0 else d[0] + Scale(base, FromDigits(base, d[1..]))
  }

  ghost predicate Below(base: nat, d: seq<nat>) {
    forall i :: 0 <= i < |d| ==> d[i] < base
  }

  function Reversed(s: seq): (r: seq)
    ensures |r| == |s| && forall i :: 0 <= i < |s| ==> r[i] == s[|s| - 1 - i]
  {
    seq(|s|, i requires 0 <= i < |s| => s[|s| - 1 - i])
  }

  // ---- `struct.pack` and `struct.unpack` ----

  function InOrder(little: seq, bo: ByteOrder): seq {
    if bo.LittleEndian? then little else Reversed(little)
  }

  function PackInt(v: nat, words: nat, bo: ByteOrder): seq<nat> {
    InOrder(Digits(256, v, 2 * words), bo)
  }

  function UnpackInt(bytes: seq<nat>, bo: ByteOrder): nat {
    FromDigits(256, InOrder(bytes, bo))
  }

  function UnpackWord(a: nat, b: nat, bo: ByteOrder): nat {
    if bo.LittleEndian? then a + 256 * b else 256 * a + b
  }

  function PackWord(w: nat, bo: ByteOrder): (r: seq<nat>)
    ensures |r| == 2
  {
    if bo.LittleEndian? then [w % 256, w / 256] else [w / 256, w % 256]
  }

  /** `split_to_registers` before the register order is applied. */
  function Cut(bytes: seq<nat>, bo: ByteOrder): (r: seq<nat>)
    requires |bytes| % 2 == 0
    ensures |r| == |bytes| / 2
  {
    seq(|bytes| / 2, i requires 0 <= i < |bytes| / 2 => UnpackWord(bytes[2 * i], bytes[2 * i + 1], bo))
  }

  /** `assemble_from_registers` after the register order is undone: every word packed in the byte order. */
  function Joined(words: seq<nat>, bo: ByteOrder): (r: seq<nat>)
    ensures |r| == 2 * |words|
  {
    if words == [] then [] else PackWord(words[0], bo) + Joined(words[1..], bo)
  }

  function Ordered(words: seq, ro: RegisterOrder): seq {
    if ro.LowFirst? then Reversed(words) else words
  }

  // ---- Encoding and decoding ----

  /** Two's complement. */
  function Unsigned(t: IntType, v: int): (r: nat)
    requires t.InRange(v)
    ensures r < Pow(65536, t.words)
  {
    HalfBound(t);
    if v < 0 then v + Pow(65536, t.words) else v
  }

  lemma HalfBound(t: IntType)
    ensures Pow(65536, t.words) / 2 <= Pow(65536, t.words)
  {}

  function Signed(t: IntType, u: nat): int {
    if t.signed && u > t.Max() then u - Pow(65536, t.words) else u
  }

  function Encode(t: IntType, v: int, bo: ByteOrder, ro: RegisterOrder): seq<nat>
    requires t.Valid() && t.InRange(v)
  {
    if t.words == 1 then [Unsigned(t, v)]
    else Ordered(Cut(PackInt(Unsigned(t, v), t.words, bo), bo), ro)
  }

  function Decode(t: IntType, words: seq<nat>, bo: ByteOrder, ro: RegisterOrder): int
    requires t.Valid() && |words| == t.words
  {
    if t.words == 1 then Signed(t, words[0])
    else Signed(t, UnpackInt(Joined(Ordered(words, ro), bo), bo))
  }

  // ---- Digits ----

  lemma DivMod(v: nat, base: nat)
    requires base > 0
    ensures v == Digit(v, base) + Scale(base, Shift(v, base))
  {}

  lemma QuotientBound(v: nat, base: nat, p: nat)
    requires base > 0 && v < Scale(base, p)
    ensures Shift(v, base) < p
  {
    DivMod(v, base);
    MulMonoInt(p, Shift(v, base), base);
  }

  lemma {:induction false} DigitsRoundTrip(base: nat, v: nat, n: nat)
    requires base > 0 && v < Pow(base, n)
    ensures FromDigits(base, Digits(base, v, n)) == v
    decreases n
  {
    hide Digit, Shift, Scale;
    if n > 0 {
      DivMod(v, base);
      QuotientBound(v, base, Pow(base, n - 1));
      DigitsRoundTrip(base, Shift(v, base), n - 1);
      assert Digits(base, v, n)[1..] == Digits(base, Shift(v, base), n - 1);
    }
  }

  lemma ScaleStep(base: nat, x: nat, y: nat)
    ensures x < y ==> Scale(base, x) + base <= Scale(base, y)
  {
    MulMonoInt(x + 1, y, base);
  }

  lemma RemainderOf(base: nat, low: nat, high: nat)
    requires low < base
    ensures Digit(low + Scale(base, high), base) == low && Shift(low + Scale(base, high), base) == high
  {
    var v := low + Scale(base, high);
    DivMod(v, base);
    hide Scale, Digit, Shift;
    ScaleStep(base, Shift(v, base), high);
    ScaleStep(base, high, Shift(v, base));
  }

  lemma ScaleBound(base: nat, low: nat, high: nat, p: nat)
    requires low < base && high < p
    ensures low + Scale(base, high) < Scale(base, p)
  {
    MulMonoInt(high + 1, p, base);
  }

  lemma {:induction false} ValueRoundTrip(base: nat, d: seq<nat>)
    requires base > 0 && Below(base, d)
    ensures FromDigits(base, d) < Pow(base, |d|) && Digits(base, FromDigits(base, d), |d|) == d
  {
    hide Digit, Shift, Scale;
    if d != [] {
      ValueRoundTrip(base, d[1..]);
      var high := FromDigits(base, d[1..]);
      RemainderOf(base, d[0], high);
      ScaleBound(base, d[0], high, Pow(base, |d| - 1));
      assert d == [d[0]] + d[1..];
    }
  }

  // ---- Bytes and words ----

  lemma BytePair(v: nat)
    ensures Digit(v, 256) + 256 * Digit(Shift(v, 256), 256) == Digit(v, 65536)
    ensures Shift(Shift(v, 256), 256) == Shift(v, 65536)
  {}

  lemma {:induction false} BytesToWords(v: nat, n: nat, k: nat)
    requires k < n
    ensures Digits(256, v, 2 * n)[2 * k] + 256 * Digits(256, v, 2 * n)[2 * k + 1] == Digits(65536, v, n)[k]
    decreases n
  {
    BytePair(v);
    hide Digit, Shift;
    var low, high := Digit(v, 256), Digit(Shift(v, 256), 256);
    assert Digits(256, Shift(v, 256), 2 * n - 1) == [high] + Digits(256, Shift(v, 65536), 2 * (n - 1));
    assert Digits(256, v, 2 * n) == [low, high] + Digits(256, Shift(v, 65536), 2 * (n - 1));
    if k > 0 {
      BytesToWords(Shift(v, 65536), n - 1, k - 1);
    }
  }

  /** The byte order decides the order of the words, and never swaps the bytes of a word. */
  lemma CutWords(v: nat, n: nat, bo: ByteOrder)
    ensures Cut(PackInt(v, n, bo), bo) == InOrder(Digits(65536, v, n), bo)
  {
    var bytes, words := Digits(256, v, 2 * n), Digits(65536, v, n);
    forall k | 0 <= k < n ensures bytes[2 * k] + 256 * bytes[2 * k + 1] == words[k] {
      BytesToWords(v, n, k);
    }
    CutOrdered(bytes, words, bo);
  }

  lemma CutOrdered(bytes: seq<nat>, words: seq<nat>, bo: ByteOrder)
    requires |bytes| == 2 * |words|
    requires forall k :: 0 <= k < |words| ==> bytes[2 * k] + 256 * bytes[2 * k + 1] == words[k]
    ensures Cut(InOrder(bytes, bo), bo) == InOrder(words, bo)
  {
    var a, b, n := Cut(InOrder(bytes, bo), bo), InOrder(words, bo), |words|;
    forall k | 0 <= k < n ensures a[k] == b[k] {
      if bo.BigEndian? {
        var j := n - 1 - k;
        assert bytes[2 * j] + 256 * bytes[2 * j + 1] == words[j];
        assert Reversed(bytes)[2 * k] == bytes[2 * j + 1] && Reversed(bytes)[2 * k + 1] == bytes[2 * j];
      }
    }
  }

  lemma TwoBytes(w: nat, rest: nat)
    ensures w % 256 + Scale(256, w / 256 + Scale(256, rest)) == w + Scale(65536, rest)
  {}

  lemma {:induction false} JoinedValue(words: seq<nat>)
    ensures FromDigits(256, Joined(words, LittleEndian)) == FromDigits(65536, words)
  {
    if words != [] {
      var w, rest := words[0], Joined(words[1..], LittleEndian);
      JoinedValue(words[1..]);
      TwoBytes(w, FromDigits(256, rest));
      var all := Joined(words, LittleEndian);
      hide Scale;
      assert all == [w % 256, w / 256] + rest && all[1..] == [w / 256] + rest && all[1..][1..] == rest;
    }
  }

  lemma {:induction false} JoinedAt(words: seq<nat>, bo: ByteOrder, k: nat)
    requires k < |words|
    ensures var r := Joined(words, bo);
      if bo.LittleEndian? then r[2 * k] == words[k] % 256 && r[2 * k + 1] == words[k] / 256
      else r[2 * k] == words[k] / 256 && r[2 * k + 1] == words[k] % 256
    decreases |words|
  {
    if k > 0 {
      JoinedAt(words[1..], bo, k - 1);
    }
  }

  lemma JoinedReversed(words: seq<nat>)
    ensures Reversed(Joined(words, BigEndian)) == Joined(Reversed(words), LittleEndian)
  {
    hide Joined;
    var a, b := Reversed(Joined(words, BigEndian)), Joined(Reversed(words), LittleEndian);
    forall j | 0 <= j < 2 * |words| ensures a[j] == b[j] {
      var k := j / 2;
      var m := |words| - 1 - k;
      JoinedAt(words, BigEndian, m);
      JoinedAt(Reversed(words), LittleEndian, k);
      assert Reversed(words)[k] == words[m];
      if j % 2 == 0 {
        assert j == 2 * k && |a| - 1 - j == 2 * m + 1;
      } else {
        assert j == 2 * k + 1 && |a| - 1 - j == 2 * m;
      }
    }
  }

  lemma UnpackWords(words: seq<nat>, bo: ByteOrder)
    ensures UnpackInt(Joined(words, bo), bo) == FromDigits(65536, InOrder(words, bo))
  {
    if bo.LittleEndian? {
      JoinedValue(words);
    } else {
      JoinedReversed(words);
      JoinedValue(Reversed(words));
    }
  }

  // ---- The laws of the codec ----

  /** The words least significant first, in the order the two settings ask for together. */
  function Arranged(words: seq, bo: ByteOrder, ro: RegisterOrder): seq {
    if bo.LittleEndian? == ro.HighFirst? then words else Reversed(words)
  }

  lemma ReversedTwice(s: seq)
    ensures Reversed(Reversed(s)) == s
  {}

  lemma EncodeWords(t: IntType, v: int, bo: ByteOrder, ro: RegisterOrder)
    requires t.Valid() && t.InRange(v)
    ensures Encode(t, v, bo, ro) == Arranged(Digits(65536, Unsigned(t, v), t.words), bo, ro)
  {
    var u := Unsigned(t, v);
    var d := Digits(65536, u, t.words);
    ReversedTwice(d);
    CutWords(u, t.words, bo);
    if t.words == 1 {
      assert u / 65536 == 0 && d == [u];
    }
  }

  lemma OneDigit(w: nat)
    ensures FromDigits(65536, [w]) == w
  {}

  lemma Undone(words: seq<nat>, bo: ByteOrder, ro: RegisterOrder)
    ensures InOrder(Ordered(words, ro), bo) == Arranged(words, bo, ro)
  {
    ReversedTwice(words);
  }

  lemma DecodeWords(t: IntType, words: seq<nat>, bo: ByteOrder, ro: RegisterOrder)
    requires t.Valid() && |words| == t.words
    ensures Decode(t, words, bo, ro) == Signed(t, FromDigits(65536, Arranged(words, bo, ro)))
  {
    Undone(words, bo, ro);
    if t.words == 1 {
      assert Arranged(words, bo, ro) == [words[0]];
      OneDigit(words[0]);
    } else {
      hide UnpackInt, FromDigits, InOrder, Signed, Joined, Arranged, Ordered;
      UnpackWords(Ordered(words, ro), bo);
    }
  }

  lemma EvenPow(n: nat)
    requires n > 0
    ensures Pow(65536, n) % 2 == 0
  {
    assert Pow(65536, n) == 2 * (32768 * Pow(65536, n - 1));
  }

  lemma SignedRoundTrip(t: IntType, v: int)
    requires t.Valid() && t.InRange(v)
    ensures Signed(t, Unsigned(t, v)) == v
  {
    EvenPow(t.words);
  }

  lemma UnsignedRoundTrip(t: IntType, u: nat)
    requires t.Valid() && u < Pow(65536, t.words)
    ensures t.InRange(Signed(t, u)) && Unsigned(t, Signed(t, u)) == u
  {
    EvenPow(t.words);
  }

  lemma ArrangedTwice(s: seq, bo: ByteOrder, ro: RegisterOrder)
    ensures Arranged(Arranged(s, bo, ro), bo, ro) == s && |Arranged(s, bo, ro)| == |s|
  {
    ReversedTwice(s);
  }

  /** An encoding is a list of 16-bit words, as many as the type has. */
  lemma EncodedAreWords(t: IntType, v: int, bo: ByteOrder, ro: RegisterOrder)
    requires t.Valid() && t.InRange(v)
    ensures |Encode(t, v, bo, ro)| == t.words && Below(65536, Encode(t, v, bo, ro))
  {
    EncodeWords(t, v, bo, ro);
  }

  lemma DecodeEncode(t: IntType, v: int, bo: ByteOrder, ro: RegisterOrder)
    requires t.Valid() && t.InRange(v)
    ensures |Encode(t, v, bo, ro)| == t.words
    ensures Decode(t, Encode(t, v, bo, ro), bo, ro) == v
  {
    var u := Unsigned(t, v);
    var d := Digits(65536, u, t.words);
    ArrangedTwice(d, bo, ro);
    hide Signed, FromDigits, Digits, Encode, Decode, Arranged;
    EncodeWords(t, v, bo, ro);
    DecodeWords(t, Encode(t, v, bo, ro), bo, ro);
    DigitsRoundTrip(65536, u, t.words);
    SignedRoundTrip(t, v);
  }

  lemma EncodeDecode(t: IntType, words: seq<nat>, bo: ByteOrder, ro: RegisterOrder)
    requires t.Valid() && |words| == t.words && Below(65536, words)
    ensures t.InRange(Decode(t, words, bo, ro))
    ensures Encode(t, Decode(t, words, bo, ro), bo, ro) == words
  {
    var d := Arranged(words, bo, ro);
    DecodeWords(t, words, bo, ro);
    ArrangedTwice(words, bo, ro);
    ValueRoundTrip(65536, d);
    UnsignedRoundTrip(t, FromDigits(65536, d));
    hide Signed, FromDigits, Digits, Encode, Decode, Arranged, Unsigned;
    EncodeWords(t, Decode(t, words, bo, ro), bo, ro);
  }

  /** Little-endian byte order with high words first is big-endian with low words first. */
  lemma LittleIsReversed(t: IntType, v: int)
    requires t.Valid() && t.InRange(v)
    ensures Encode(t, v, LittleEndian, HighFirst) == Encode(t, v, BigEndian, LowFirst)
    ensures Encode(t, v, LittleEndian, HighFirst) == Reversed(Encode(t, v, BigEndian, HighFirst))
  {
    EncodeWords(t, v, LittleEndian, HighFirst);
    EncodeWords(t, v, BigEndian, LowFirst);
    EncodeWords(t, v, BigEndian, HighFirst);
    ReversedTwice(Digits(65536, Unsigned(t, v), t.words));
  }
}
