/** The gateway's named registers over two arrays of 16-bit words: what one register's value is, what writing
    it does to the words, and why registers never disturb each other. */
module RegisterModel {
  import opened Numeric
  import opened Codec

  datatype RegisterType = Holding | Input

  datatype Name = Name(text: string)

  datatype RegisterDef = RegisterDef(
    name: Name, address: nat, dataType: IntType, registerType: RegisterType, scale: real, initial: Option<real>,
    byteOrder: Option<ByteOrder>, registerOrder: Option<RegisterOrder>, writable: bool)
  {
    ghost predicate Valid() {
      dataType.Valid() && scale != 0.0
    }

    /** The first address after the register. */
    function End(): nat {
      address + dataType.words
    }
  }

  datatype Config = Config(size: nat, byteOrder: ByteOrder, registerOrder: RegisterOrder) {
    function ByteOrderOf(d: RegisterDef): ByteOrder {
      d.byteOrder.GetOr(byteOrder)
    }

    function RegisterOrderOf(d: RegisterDef): RegisterOrder {
      d.registerOrder.GetOr(registerOrder)
    }
  }

  datatype Error =
    | DuplicateName(name: Name)
    | OutOfSpace(name: Name)
    | Overlap(existing: Name, added: Name, start: nat, end: nat)
    | UnknownName(name: Name)
    | NotInteger(scaled: real)
    | OutOfRange(value: int)

  datatype Result<+T> = Ok(value: T) | Err(error: Error)

  /** The contents of the two arrays. */
  datatype Image = Image(hr: seq<nat>, ir: seq<nat>) {
    function Regs(t: RegisterType): seq<nat> {
      if t.Holding? then hr else ir
    }

    function With(t: RegisterType, regs: seq<nat>): Image {
      if t.Holding? then Image(regs, ir) else Image(hr, regs)
    }

    ghost predicate Fits(cfg: Config) {
      |hr| == cfg.size && |ir| == cfg.size && Below(65536, hr) && Below(65536, ir)
    }
  }

  // ---- Registration ----

  predicate Overlaps(a: RegisterDef, b: RegisterDef) {
    a.registerType == b.registerType && a.address <= b.End() - 1 && b.address <= a.End() - 1
  }

  /** The first accepted definition that overlaps a new one. */
  function FirstOverlap(accepted: seq<RegisterDef>, d: RegisterDef): (r: Option<RegisterDef>)
    ensures r.Some? ==> r.value in accepted && Overlaps(r.value, d)
    ensures r.None? ==> forall e :: e in accepted ==> !Overlaps(e, d)
  {
    if accepted == [] then None
    else if Overlaps(accepted[0], d) then Some(accepted[0])
    else FirstOverlap(accepted[1..], d)
  }

  function Refusal(cfg: Config, accepted: seq<RegisterDef>, d: RegisterDef): Option<Error> {
    if exists e :: e in accepted && e.name == d.name then Some(DuplicateName(d.name))
    else if d.End() - 1 >= cfg.size then Some(OutOfSpace(d.name))
    else
      var e := FirstOverlap(accepted, d);
      if e.Some? then
        Some(Overlap(e.value.name, d.name,
                     if d.address < e.value.address then e.value.address else d.address,
                     if d.End() < e.value.End() then d.End() - 1 else e.value.End() - 1))
      else None
  }

  ghost predicate ValidDefs(defs: seq<RegisterDef>) {
    forall d :: d in defs ==> d.Valid()
  }

  /** Distinct names, inside the address space, no two registers of a type sharing an address. */
  ghost predicate WellFormed(cfg: Config, defs: seq<RegisterDef>) {
    && (forall i :: 0 <= i < |defs| ==> defs[i].End() <= cfg.size)
    && (forall i, j :: 0 <= i < j < |defs| ==> defs[i].name != defs[j].name && !Overlaps(defs[i], defs[j]))
  }

  ghost predicate Fresh(cfg: Config, accepted: seq<RegisterDef>, d: RegisterDef) {
    d.End() <= cfg.size && forall e :: e in accepted ==> e.name != d.name && !Overlaps(e, d)
  }

  lemma WellFormedAppend(cfg: Config, accepted: seq<RegisterDef>, d: RegisterDef)
    requires WellFormed(cfg, accepted)
    ensures WellFormed(cfg, accepted + [d]) <==> Fresh(cfg, accepted, d)
  {
    var more := accepted + [d];
    if WellFormed(cfg, more) {
      assert more[|accepted|] == d;
      forall e | e in accepted ensures e.name != d.name && !Overlaps(e, d) {
        var i :| 0 <= i < |accepted| && accepted[i] == e;
        assert more[i] == e;
      }
    }
    if Fresh(cfg, accepted, d) {
      forall i, j | 0 <= i < j < |more| ensures more[i].name != more[j].name && !Overlaps(more[i], more[j]) {
        assert more[i] in accepted;
      }
    }
  }

  /** A definition is accepted exactly when the list stays well formed. */
  lemma AcceptedIff(cfg: Config, accepted: seq<RegisterDef>, d: RegisterDef)
    requires WellFormed(cfg, accepted)
    ensures Refusal(cfg, accepted, d).None? <==> WellFormed(cfg, accepted + [d])
  {
    WellFormedAppend(cfg, accepted, d);
  }

  lemma PrefixWellFormed(cfg: Config, defs: seq<RegisterDef>, n: nat)
    requires WellFormed(cfg, defs) && n <= |defs|
    ensures WellFormed(cfg, defs[..n])
  {}

  // ---- Reading and writing one register ----

  ghost predicate Placed(cfg: Config, d: RegisterDef, img: Image) {
    d.Valid() && d.End() <= cfg.size && img.Fits(cfg)
  }

  function RawOf(d: RegisterDef, img: Image): seq<nat>
    requires d.End() <= |img.Regs(d.registerType)|
  {
    img.Regs(d.registerType)[d.address..d.End()]
  }

  function Decoded(cfg: Config, d: RegisterDef, words: seq<nat>): int
    requires d.Valid() && |words| == d.dataType.words
  {
    Decode(d.dataType, words, cfg.ByteOrderOf(d), cfg.RegisterOrderOf(d))
  }

  function Physical(cfg: Config, d: RegisterDef, words: seq<nat>): real
    requires d.Valid() && |words| == d.dataType.words
  {
    if d.scale != 1.0 then Decoded(cfg, d, words) as real / d.scale else Decoded(cfg, d, words) as real
  }

  function ValueOf(cfg: Config, d: RegisterDef, img: Image): real
    requires d.Valid() && d.End() <= |img.Regs(d.registerType)|
  {
    Physical(cfg, d, RawOf(d, img))
  }

  function Scaled(d: RegisterDef, v: real): real {
    v * d.scale
  }

  /** The words of a physical value: scaled, taken as the nearest integer if closer than 1e-9, and encoded. */
  function WordsFor(cfg: Config, d: RegisterDef, v: real): (r: Result<seq<nat>>)
    requires d.Valid()
    ensures r.Ok? ==> |r.value| == d.dataType.words && Below(65536, r.value)
  {
    var scaled := Scaled(d, v);
    var rounded := Round(scaled);
    if Abs(scaled - rounded as real) < 0.000000001 then
      if d.dataType.InRange(rounded) then
        EncodedAreWords(d.dataType, rounded, cfg.ByteOrderOf(d), cfg.RegisterOrderOf(d));
        Ok(Encode(d.dataType, rounded, cfg.ByteOrderOf(d), cfg.RegisterOrderOf(d)))
      else Err(OutOfRange(rounded))
    else Err(NotInteger(scaled))
  }

  function Splice(s: seq<nat>, at: nat, words: seq<nat>): (r: seq<nat>)
    requires at + |words| <= |s|
    ensures |r| == |s|
    ensures forall i :: 0 <= i < |s| ==> r[i] == if at <= i < at + |words| then words[i - at] else s[i]
  {
    s[..at] + words + s[at + |words|..]
  }

  function Put(d: RegisterDef, words: seq<nat>, img: Image): (r: Image)
    requires |words| == d.dataType.words && d.End() <= |img.Regs(d.registerType)|
  {
    img.With(d.registerType, Splice(img.Regs(d.registerType), d.address, words))
  }

  // ---- Laws ----

  lemma PutFits(cfg: Config, d: RegisterDef, words: seq<nat>, img: Image)
    requires Placed(cfg, d, img) && |words| == d.dataType.words && Below(65536, words)
    ensures Put(d, words, img).Fits(cfg)
  {}

  lemma PutGet(d: RegisterDef, words: seq<nat>, img: Image)
    requires |words| == d.dataType.words && d.End() <= |img.Regs(d.registerType)|
    ensures RawOf(d, Put(d, words, img)) == words
  {}

  /** A write to one register leaves every disjoint register alone. */
  lemma PutElsewhere(d: RegisterDef, words: seq<nat>, e: RegisterDef, img: Image)
    requires |words| == d.dataType.words && d.End() <= |img.Regs(d.registerType)|
    requires e.End() <= |img.Regs(e.registerType)| && !Overlaps(d, e) && d.Valid() && e.Valid()
    ensures RawOf(e, Put(d, words, img)) == RawOf(e, img)
  {}

  /** Integer k as a physical value of the register. */
  function FromInt(d: RegisterDef, k: int): real
    requires d.scale != 0.0
  {
    if d.scale != 1.0 then k as real / d.scale else k as real
  }

  lemma ScaledBack(d: RegisterDef, k: int)
    requires d.scale != 0.0
    ensures Scaled(d, FromInt(d, k)) == k as real
  {}

  lemma UnscaledBack(d: RegisterDef, v: real, k: int)
    requires d.scale != 0.0 && Scaled(d, v) == k as real
    ensures FromInt(d, k) == v
  {
    assert v * d.scale / d.scale == v;
  }

  lemma RoundWhole(k: int)
    ensures Round(k as real) == k
  {}

  /** A value the register can hold exactly. */
  ghost predicate Representable(d: RegisterDef, v: real) {
    Scaled(d, v) == Round(Scaled(d, v)) as real && d.dataType.InRange(Round(Scaled(d, v)))
  }

  /** What is read back is the integer nearest the scaled value, rescaled; exactly the value if representable. */
  lemma ReadBack(cfg: Config, d: RegisterDef, v: real)
    requires d.Valid() && WordsFor(cfg, d, v).Ok?
    ensures Physical(cfg, d, WordsFor(cfg, d, v).value) == FromInt(d, Round(Scaled(d, v)))
    ensures Representable(d, v) ==> Physical(cfg, d, WordsFor(cfg, d, v).value) == v
  {
    var k := Round(Scaled(d, v));
    DecodeEncode(d.dataType, k, cfg.ByteOrderOf(d), cfg.RegisterOrderOf(d));
    hide Encode, Decode, Round, Scaled, FromInt;
    assert Decoded(cfg, d, WordsFor(cfg, d, v).value) == k;
    FromIntIs(cfg, d, WordsFor(cfg, d, v).value);
    if Representable(d, v) {
      UnscaledBack(d, v, k);
    }
  }

  lemma FromIntIs(cfg: Config, d: RegisterDef, words: seq<nat>)
    requires d.Valid() && |words| == d.dataType.words
    ensures Physical(cfg, d, words) == FromInt(d, Decoded(cfg, d, words))
  {}

  lemma RepresentableWrites(cfg: Config, d: RegisterDef, v: real)
    requires d.Valid() && Representable(d, v)
    ensures WordsFor(cfg, d, v).Ok?
  {}

  /** A decoded value is representable and is stored as the very words it came from. */
  lemma WordsBack(cfg: Config, d: RegisterDef, words: seq<nat>)
    requires d.Valid() && |words| == d.dataType.words && Below(65536, words)
    ensures Representable(d, Physical(cfg, d, words))
    ensures WordsFor(cfg, d, Physical(cfg, d, words)) == Ok(words)
  {
    var k := Decoded(cfg, d, words);
    FromIntIs(cfg, d, words);
    ScaledBack(d, k);
    RoundWhole(k);
    EncodeDecode(d.dataType, words, cfg.ByteOrderOf(d), cfg.RegisterOrderOf(d));
    hide Encode, Decode, Scaled, Round, FromInt, Physical;
  }

  // ---- The map from names to values ----

  ghost predicate AllPlaced(cfg: Config, defs: seq<RegisterDef>, img: Image) {
    WellFormed(cfg, defs) && ValidDefs(defs) && img.Fits(cfg)
  }

  function AllValues(cfg: Config, defs: seq<RegisterDef>, img: Image): map<Name, real>
    requires AllPlaced(cfg, defs, img)
  {
    if defs == [] then map[]
    else
      PrefixWellFormed(cfg, defs, |defs| - 1);
      var d := defs[|defs| - 1];
      AllValues(cfg, defs[..|defs| - 1], img)[d.name := ValueOf(cfg, d, img)]
  }

  ghost predicate IsName(defs: seq<RegisterDef>, n: Name) {
    exists i :: 0 <= i < |defs| && defs[i].name == n
  }

  /** The map has exactly the registered names ... */
  lemma {:induction false} AllValuesNames(cfg: Config, defs: seq<RegisterDef>, img: Image)
    requires AllPlaced(cfg, defs, img)
    ensures forall n :: n in AllValues(cfg, defs, img) <==> IsName(defs, n)
  {
    hide ValueOf, Overlaps;
    if defs != [] {
      var front := defs[..|defs| - 1];
      PrefixWellFormed(cfg, defs, |defs| - 1);
      AllValuesNames(cfg, front, img);
      forall n ensures IsName(defs, n) <==> IsName(front, n) || n == defs[|defs| - 1].name {
        NameOfFront(defs, n);
      }
    }
  }

  lemma NameOfFront(defs: seq<RegisterDef>, n: Name)
    requires defs != []
    ensures IsName(defs, n) <==> IsName(defs[..|defs| - 1], n) || n == defs[|defs| - 1].name
  {
    if i :| 0 <= i < |defs| - 1 && defs[i].name == n {
      assert defs[..|defs| - 1][i].name == n;
    }
  }

  /** ... each with the value of its register. */
  lemma {:induction false} AllValuesAt(cfg: Config, defs: seq<RegisterDef>, img: Image, i: nat)
    requires AllPlaced(cfg, defs, img) && i < |defs|
    ensures defs[i].name in AllValues(cfg, defs, img)
    ensures AllValues(cfg, defs, img)[defs[i].name] == ValueOf(cfg, defs[i], img)
  {
    hide ValueOf, Overlaps;
    PrefixWellFormed(cfg, defs, |defs| - 1);
    if i < |defs| - 1 {
      AllValuesAt(cfg, defs[..|defs| - 1], img, i);
    }
  }

  /** Writing words to one register changes the map at that name only. */
  lemma PutUpdatesOne(cfg: Config, defs: seq<RegisterDef>, img: Image, j: nat, words: seq<nat>)
    requires AllPlaced(cfg, defs, img) && j < |defs|
    requires |words| == defs[j].dataType.words && Below(65536, words)
    ensures Put(defs[j], words, img).Fits(cfg)
    ensures AllValues(cfg, defs, Put(defs[j], words, img)) ==
      AllValues(cfg, defs, img)[defs[j].name := Physical(cfg, defs[j], words)]
  {
    var d := defs[j];
    var img' := Put(d, words, img);
    PutFits(cfg, d, words, img);
    PutGet(d, words, img);
    var before, after := AllValues(cfg, defs, img), AllValues(cfg, defs, img');
    AllValuesNames(cfg, defs, img);
    AllValuesNames(cfg, defs, img');
    hide Put, AllValues, Physical, IsName;
    forall i | 0 <= i < |defs|
      ensures defs[i].name in before && defs[i].name in after
      ensures i != j ==> after[defs[i].name] == before[defs[i].name]
    {
      AllValuesAt(cfg, defs, img, i);
      AllValuesAt(cfg, defs, img', i);
      if i != j {
        assert !Overlaps(d, defs[i]);
        PutElsewhere(d, words, defs[i], img);
      }
    }
    AllValuesAt(cfg, defs, img', j);
    UpdatedMap(defs, before, after, j);
  }

  lemma UpdatedMap(defs: seq<RegisterDef>, before: map<Name, real>, after: map<Name, real>, j: nat)
    requires j < |defs|
    requires forall n :: n in before <==> IsName(defs, n)
    requires forall n :: n in after <==> IsName(defs, n)
    requires forall i :: 0 <= i < |defs| ==> defs[i].name in before && defs[i].name in after
    requires forall i :: 0 <= i < |defs| && i != j ==> after[defs[i].name] == before[defs[i].name]
    ensures after == before[defs[j].name := after[defs[j].name]]
  {
    assert after.Keys == before.Keys;
    forall n | n in after ensures after[n] == before[defs[j].name := after[defs[j].name]][n] {
      assert IsName(defs, n);
    }
  }

  /** After `set_value` the map is the old one with that name updated, to the value itself if representable. */
  lemma SetUpdatesOne(cfg: Config, defs: seq<RegisterDef>, img: Image, j: nat, v: real)
    requires AllPlaced(cfg, defs, img) && j < |defs| && WordsFor(cfg, defs[j], v).Ok?
    ensures var img' := Put(defs[j], WordsFor(cfg, defs[j], v).value, img);
      && img'.Fits(cfg)
      && AllValues(cfg, defs, img') ==
           AllValues(cfg, defs, img)[defs[j].name := FromInt(defs[j], Round(Scaled(defs[j], v)))]
      && (Representable(defs[j], v) ==>
          AllValues(cfg, defs, img') == AllValues(cfg, defs, img)[defs[j].name := v])
  {
    hide AllValues, WordsFor, Physical, Round, Scaled, FromInt, Put;
    ReadBack(cfg, defs[j], v);
    PutUpdatesOne(cfg, defs, img, j, WordsFor(cfg, defs[j], v).value);
  }

  // ---- Lookup of the registers a raw write touches ----

  predicate Touches(d: RegisterDef, address: nat, count: nat, t: RegisterType) {
    d.registerType == t && d.address <= address + count - 1 && address <= d.End() - 1
  }

  /** In definition order. */
  function Affected(defs: seq<RegisterDef>, address: nat, count: nat, t: RegisterType): seq<RegisterDef> {
    if defs == [] then []
    else
      Affected(defs[..|defs| - 1], address, count, t)
      + if Touches(defs[|defs| - 1], address, count, t) then [defs[|defs| - 1]] else []
  }

  ghost predicate Covers(d: RegisterDef, a: nat) {
    d.address <= a < d.End()
  }

  lemma {:induction false} AffectedMembers(defs: seq<RegisterDef>, address: nat, count: nat,
      t: RegisterType, d: RegisterDef)
    ensures d in Affected(defs, address, count, t) <==> d in defs && Touches(d, address, count, t)
  {
    if defs != [] {
      AffectedMembers(defs[..|defs| - 1], address, count, t, d);
      assert defs == defs[..|defs| - 1] + [defs[|defs| - 1]];
    }
  }

  /** The definitions found are exactly those of the type with some written address in their range. */
  lemma AffectedExact(defs: seq<RegisterDef>, address: nat, count: nat, t: RegisterType, d: RegisterDef)
    requires ValidDefs(defs) && count > 0
    ensures d in Affected(defs, address, count, t) <==>
      d in defs && d.registerType == t && exists a :: address <= a < address + count && Covers(d, a)
  {
    AffectedMembers(defs, address, count, t, d);
    if d in defs && Touches(d, address, count, t) {
      assert Covers(d, if address < d.address then d.address else address);
    }
  }
}
