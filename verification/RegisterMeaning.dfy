/** What registers mean, in words and numbers only: the integer some words stand for, the value a scale makes of it, and
    which values a register takes. */
module RegisterMeaning {
  import opened Numeric
  import opened Codec
  import opened RegisterModel

  // ---- Words ----

  /** The words most significant first: one of the two settings reverses them, both together do not. */
  function MostFirst(words: seq<nat>, bo: ByteOrder, ro: RegisterOrder): seq<nat> {
    if bo.BigEndian? == ro.HighFirst? then words else Reversed(words)
  }

  /** One, two or four words as one number. */
  function Joint(words: seq<nat>): int
    requires |words| == 1 || |words| == 2 || |words| == 4
  {
    if |words| == 1 then words[0]
    else if |words| == 2 then 0x1_0000 * words[0] + words[1]
    else 0x1_0000_0000_0000 * words[0] + 0x1_0000_0000 * words[1] + 0x1_0000 * words[2] + words[3]
  }

  /** How many numbers so many words tell apart. */
  function Span(words: nat): int {
    if words == 1 then 0x1_0000 else if words == 2 then 0x1_0000_0000 else 0x1_0000_0000_0000_0000
  }

  lemma SpanIs(t: IntType)
    requires t.Valid()
    ensures Pow(65536, t.words) == Span(t.words)
  {
    assert Pow(65536, 0) == 1 && Pow(65536, 1) == 65536;
    assert t.words >= 2 ==> Pow(65536, 2) == 0x1_0000_0000;
    assert t.words >= 4 ==> Pow(65536, 3) == 0x1_0000_0000_0000;
  }

  lemma JointDigits(little: seq<nat>)
    requires |little| == 1 || |little| == 2 || |little| == 4
    ensures FromDigits(65536, little) == Joint(Reversed(little))
  {
    var r := Reversed(little);
    FromLast(little);
    if |little| > 1 {
      FromLast(little[1..]);
    }
    if |little| == 4 {
      FromLast(little[1..][1..]);
      FromLast(little[1..][1..][1..]);
    }
  }

  lemma FromLast(d: seq<nat>)
    requires d != []
    ensures FromDigits(65536, d) == d[0] + 65536 * FromDigits(65536, d[1..])
  {}

  /** Decoding: the joint number, and from half the span on, for signed types, that less the span. */
  lemma DecodeMeans(t: IntType, words: seq<nat>, bo: ByteOrder, ro: RegisterOrder)
    requires t.Valid() && |words| == t.words && Below(65536, words)
    ensures var u := Joint(MostFirst(words, bo, ro));
      Decode(t, words, bo, ro) == if t.signed && 2 * u >= Span(t.words) then u - Span(t.words) else u
  {
    DecodeWords(t, words, bo, ro);
    JointDigits(Arranged(words, bo, ro));
    ReversedTwice(words);
    SpanIs(t);
    EvenPow(t.words);
    hide FromDigits, Decode, Joint, Pow;
  }

  /** The integers of a type. */
  predicate Holds(t: IntType, k: int) {
    if t.signed then -Span(t.words) <= 2 * k < Span(t.words) else 0 <= k < Span(t.words)
  }

  lemma HoldsIff(t: IntType, k: int)
    requires t.Valid()
    ensures t.InRange(k) <==> Holds(t, k)
  {
    SpanIs(t);
    EvenPow(t.words);
    hide Pow;
  }

  // ---- Values ----

  /** The integer in the register, by its own orders or else the gateway's. */
  function Number(cfg: Config, d: RegisterDef, words: seq<nat>): int
    requires d.Valid() && |words| == d.dataType.words
  {
    var u := Joint(MostFirst(words, d.byteOrder.GetOr(cfg.byteOrder), d.registerOrder.GetOr(cfg.registerOrder)));
    if d.dataType.signed && 2 * u >= Span(d.dataType.words) then u - Span(d.dataType.words) else u
  }

  function By(v: real, scale: real): real {
    v * scale
  }

  function Over(k: int, scale: real): real
    requires scale != 0.0
  {
    k as real / scale
  }

  /** v is what the words of the register stand for: v times the scale is their integer. */
  ghost predicate Shows(cfg: Config, d: RegisterDef, words: seq<nat>, v: real)
    requires d.Valid() && |words| == d.dataType.words
  {
    By(v, d.scale) == Number(cfg, d, words) as real
  }

  lemma NumberIs(cfg: Config, d: RegisterDef, words: seq<nat>)
    requires d.Valid() && |words| == d.dataType.words && Below(65536, words)
    ensures Decoded(cfg, d, words) == Number(cfg, d, words)
  {
    DecodeMeans(d.dataType, words, cfg.ByteOrderOf(d), cfg.RegisterOrderOf(d));
    hide Joint, Decode, MostFirst, Span;
  }

  /** The value of a register is what its words show, and nothing else is. */
  lemma ValueMeans(cfg: Config, d: RegisterDef, words: seq<nat>, v: real)
    requires d.Valid() && |words| == d.dataType.words && Below(65536, words)
    ensures Shows(cfg, d, words, v) <==> v == Physical(cfg, d, words)
  {
    NumberIs(cfg, d, words);
    hide Number, Decoded;
    QuotientIff(v, d.scale, Decoded(cfg, d, words) as real);
    hide By;
  }

  lemma QuotientIff(v: real, scale: real, k: real)
    requires scale != 0.0
    ensures By(v, scale) == k <==> v == k / scale
    ensures scale == 1.0 ==> By(v, scale) == v && k / scale == k
  {
    assert k / scale * scale == k;
    if v * scale == k {
      DivOf(k, scale, v);
    }
  }

  ghost predicate Near(d: RegisterDef, v: real, k: int) {
    Abs(By(v, d.scale) - k as real) < 0.000000001
  }

  /** k is the integer the register would store for v. */
  ghost predicate Stores(d: RegisterDef, v: real, k: int) {
    Near(d, v, k) && Holds(d.dataType, k)
  }

  lemma RoundNear(x: real, k: int)
    requires Abs(x - k as real) < 0.000000001
    ensures Round(x) == k
  {}

  lemma ScaledIsBy(d: RegisterDef, v: real)
    ensures Scaled(d, v) == By(v, d.scale)
  {}

  /** A register takes a value exactly if some integer of its type is within 1e-9 of the scaled value. */
  lemma TakenIff(cfg: Config, d: RegisterDef, v: real)
    requires d.Valid()
    ensures WordsFor(cfg, d, v).Ok? <==> exists k :: Stores(d, v, k)
    ensures forall k :: Stores(d, v, k) ==> k == Round(Scaled(d, v))
  {
    var x := Round(Scaled(d, v));
    HoldsIff(d.dataType, x);
    ScaledIsBy(d, v);
    forall k | Stores(d, v, k) ensures k == x {
      RoundNear(By(v, d.scale), k);
    }
    hide By, Scaled, Round, Holds;
    if WordsFor(cfg, d, v).Ok? {
      assert Stores(d, v, x);
    }
  }

  /** Any other value is refused: as out of range if an integer is that near, or else as no integer. */
  lemma RefusedHow(cfg: Config, d: RegisterDef, v: real)
    requires d.Valid() && WordsFor(cfg, d, v).Err?
    ensures match WordsFor(cfg, d, v).error
      case OutOfRange(k) => Near(d, v, k) && !Holds(d.dataType, k)
      case NotInteger(x) => x == By(v, d.scale) && forall k :: !Near(d, v, k)
      case _ => false
  {
    HoldsIff(d.dataType, Round(Scaled(d, v)));
    ScaledIsBy(d, v);
    forall k | Near(d, v, k) ensures k == Round(Scaled(d, v)) {
      RoundNear(By(v, d.scale), k);
    }
    hide By, Scaled, Round, Holds;
  }

  /** And then its words show that integer, rescaled. */
  lemma WordsMean(cfg: Config, d: RegisterDef, v: real, k: int)
    requires d.Valid() && Stores(d, v, k)
    ensures WordsFor(cfg, d, v).Ok? && Shows(cfg, d, WordsFor(cfg, d, v).value, Over(k, d.scale))
  {
    TakenIff(cfg, d, v);
    hide Stores, WordsFor, Shows, Round, Scaled;
    TakenShows(cfg, d, v);
  }

  lemma TakenShows(cfg: Config, d: RegisterDef, v: real)
    requires d.Valid() && WordsFor(cfg, d, v).Ok?
    ensures Shows(cfg, d, WordsFor(cfg, d, v).value, Over(Round(Scaled(d, v)), d.scale))
  {
    ReadBack(cfg, d, v);
    ValueMeans(cfg, d, WordsFor(cfg, d, v).value, Over(Round(Scaled(d, v)), d.scale));
    hide Shows, WordsFor, Round, Scaled, Physical;
  }

  // ---- set_value ----

  lemma ScaledBackIs(d: RegisterDef, k: int)
    requires d.scale != 0.0
    ensures FromInt(d, k) == Over(k, d.scale)
  {}

  /** Setting a register that takes the value: in the map of all values that name then has the stored integer over the
      scale, and every other name what it had. */
  lemma SetMeans(cfg: Config, defs: seq<RegisterDef>, img: Image, j: nat, v: real, k: int)
    requires AllPlaced(cfg, defs, img) && j < |defs| && Stores(defs[j], v, k)
    ensures WordsFor(cfg, defs[j], v).Ok?
    ensures var img' := Put(defs[j], WordsFor(cfg, defs[j], v).value, img);
      && img'.Fits(cfg)
      && AllValues(cfg, defs, img') == AllValues(cfg, defs, img)[defs[j].name := Over(k, defs[j].scale)]
  {
    TakenIff(cfg, defs[j], v);
    ScaledBackIs(defs[j], k);
    hide WordsFor, AllValues, Put, Stores, FromInt, Scaled, Round, Representable;
    SetUpdatesOne(cfg, defs, img, j, v);
  }

  // ---- Registration ----

  ghost predicate Shares(a: RegisterDef, b: RegisterDef, at: int) {
    a.registerType == b.registerType && a.address <= at < a.address + a.dataType.words
    && b.address <= at < b.address + b.dataType.words
  }

  /** The first accepted definition with an address of the new one, and from which to which address they share. */
  ghost predicate Collides(accepted: seq<RegisterDef>, d: RegisterDef, i: nat, first: int, last: int) {
    && i < |accepted| && first <= last
    && (forall at :: Shares(accepted[i], d, at) <==> accepted[i].registerType == d.registerType && first <= at <= last)
    && accepted[i].registerType == d.registerType
    && forall j, at :: 0 <= j < i ==> !Shares(accepted[j], d, at)
  }

  lemma OverlapsIff(a: RegisterDef, b: RegisterDef)
    requires a.Valid() && b.Valid()
    ensures Overlaps(a, b) <==> exists at :: Shares(a, b, at)
  {
    if Overlaps(a, b) {
      assert Shares(a, b, if a.address < b.address then b.address else a.address);
    }
  }

  lemma {:induction false} FirstOverlapIs(accepted: seq<RegisterDef>, d: RegisterDef) returns (i: nat)
    requires FirstOverlap(accepted, d).Some?
    ensures i < |accepted| && FirstOverlap(accepted, d) == Some(accepted[i]) && Overlaps(accepted[i], d)
    ensures forall j :: 0 <= j < i ==> !Overlaps(accepted[j], d)
  {
    hide Overlaps;
    if Overlaps(accepted[0], d) {
      i := 0;
    } else {
      i := FirstOverlapIs(accepted[1..], d);
      i := i + 1;
    }
  }

  /** Why a definition is refused: its name is taken, or it ends outside the address space, or else it shares addresses
      with an accepted one, and the error names the first such and exactly the shared addresses. */
  lemma RefusalMeans(cfg: Config, accepted: seq<RegisterDef>, d: RegisterDef)
    requires ValidDefs(accepted) && d.Valid()
    ensures var taken := exists e :: e in accepted && e.name == d.name;
      var r := Refusal(cfg, accepted, d);
      if taken then r == Some(DuplicateName(d.name))
      else if d.address + d.dataType.words > cfg.size then r == Some(OutOfSpace(d.name))
      else if r.None? then forall e, at :: e in accepted ==> !Shares(e, d, at)
      else exists i: nat, first: nat, last: nat ::
        Collides(accepted, d, i, first, last) && r == Some(Overlap(accepted[i].name, d.name, first, last))
  {
    hide Overlaps;
    forall e | e in accepted ensures Overlaps(e, d) <==> exists at :: Shares(e, d, at) {
      OverlapsIff(e, d);
    }
    if FirstOverlap(accepted, d).Some? {
      var i := FirstOverlapIs(accepted, d);
      CollidesFirst(accepted, d, i);
    }
  }

  lemma CollidesFirst(accepted: seq<RegisterDef>, d: RegisterDef, i: nat)
    requires ValidDefs(accepted) && d.Valid() && i < |accepted| && Overlaps(accepted[i], d)
    requires forall j :: 0 <= j < i ==> !Overlaps(accepted[j], d)
    ensures var e := accepted[i];
      Collides(accepted, d, i, if d.address < e.address then e.address else d.address,
               if d.End() < e.End() then d.End() - 1 else e.End() - 1)
  {
    assert accepted[i] in accepted;
    forall j, at | 0 <= j < i ensures !Shares(accepted[j], d, at) {
      assert accepted[j] in accepted;
      OverlapsIff(accepted[j], d);
    }
  }
}
