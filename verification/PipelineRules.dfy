/** What a write from the network may do to a register, by its rule's own fields: nothing gets past its bounds. */
module PipelineRules {
  import opened Numeric
  import opened Codec
  import opened RegisterModel
  import opened RegisterMeaning
  import opened PipelineModel
  import opened PipelineLaws

  /** The write reaches every word of the register. */
  ghost predicate Reaches(w: Write, d: RegisterDef) {
    w.address <= d.address && d.address + d.dataType.words <= w.address + |w.values|
  }

  /** v is the value the write has for the register. */
  ghost predicate Offers(cfg: Config, w: Write, d: RegisterDef, v: real)
    requires d.Valid() && Reaches(w, d)
  {
    Shows(cfg, d, w.values[d.address - w.address..d.address - w.address + d.dataType.words], v)
  }

  ghost predicate Below(rule: WriteRule, v: real) {
    rule.min.Some? && v < rule.min.value
  }

  ghost predicate Above(rule: WriteRule, v: real) {
    rule.max.Some? && v > rule.max.value
  }

  /** The constructor of a rule rejects crossed bounds. */
  ghost predicate ValidRules(pol: Policy) {
    forall n :: n in pol.rules && pol.rules[n].min.Some? && pol.rules[n].max.Some? ==>
      pol.rules[n].min.value <= pol.rules[n].max.value
  }

  /** Something stands against the value: the register is read-only, a validator says no, or a rule that does not
      clamp has bounds it is beyond. */
  ghost predicate Barred(pol: Policy, d: RegisterDef, v: real) {
    || !d.writable
    || (exists i :: 0 <= i < |pol.validators| && !pol.validators[i](d.name, v))
    || (d.name in pol.rules && !pol.rules[d.name].clamp
        && (Below(pol.rules[d.name], v) || Above(pol.rules[d.name], v)))
  }

  /** The value itself, or the bound it is beyond. */
  ghost predicate Admitted(pol: Policy, n: Name, v: real, y: real) {
    if n in pol.rules && Below(pol.rules[n], v) then y == pol.rules[n].min.value
    else if n in pol.rules && Above(pol.rules[n], v) then y == pol.rules[n].max.value
    else y == v
  }

  lemma ReceivedIs(cfg: Config, w: Write, d: RegisterDef)
    requires d.Valid()
    ensures w.Received(d).Some? <==> Reaches(w, d)
    ensures w.Received(d).Some? ==>
      w.Received(d).value == w.values[d.address - w.address..d.address - w.address + d.dataType.words]
  {}

  lemma ReceivedWords(w: Write, d: RegisterDef)
    requires Sixteen(w)
    ensures w.Received(d).Some? ==> Codec.Below(65536, w.Received(d).value)
  {}

  lemma OffersReceived(cfg: Config, w: Write, d: RegisterDef, v: real)
    requires d.Valid() && Reaches(w, d) && w.Received(d).Some?
    ensures Offers(cfg, w, d, v) <==> Shows(cfg, d, w.Received(d).value, v)
  {
    hide Shows;
  }

  lemma DecisionOf(cfg: Config, pol: Policy, w: Write, d: RegisterDef)
    requires d.Valid() && w.Received(d).Some?
    ensures var v := Physical(cfg, d, w.Received(d).value);
      && (Decision(cfg, pol, w, d).None? <==> Barred(pol, d, v))
      && (Decision(cfg, pol, w, d).Some? ==> Admitted(pol, d.name, v, Decision(cfg, pol, w, d).value))
  {
    hide Physical, Write.Received;
  }

  /** What the pipeline decides for a register, by the fields alone. */
  lemma DecisionMeans(cfg: Config, pol: Policy, w: Write, d: RegisterDef, v: real)
    requires d.Valid() && Sixteen(w)
    requires Reaches(w, d) && Offers(cfg, w, d, v)
    ensures Decision(cfg, pol, w, d).None? <==> Barred(pol, d, v)
    ensures Decision(cfg, pol, w, d).Some? ==> Admitted(pol, d.name, v, Decision(cfg, pol, w, d).value)
  {
    ReceivedIs(cfg, w, d);
    ReceivedWords(w, d);
    DecisionOf(cfg, pol, w, d);
    hide *;
    ValueMeans(cfg, d, w.Received(d).value, v);
    OffersReceived(cfg, w, d, v);
  }

  /** Registers hold 16 bits. */
  ghost predicate Sixteen(w: Write) {
    Codec.Below(65536, w.values)
  }

  // ---- Barred writes ----

  lemma {:induction false} ChangesNamed(cfg: Config, pol: Policy, w: Write, regs: seq<RegisterDef>, img: Image,
      c: Change)
    requires Placeable(cfg, regs) && img.Fits(cfg) && c in Process(cfg, pol, w, regs, img).changes
    ensures exists d :: d in regs && d.name == c.name && Decision(cfg, pol, w, d).Some?
  {
    hide Decision, WordsFor, ValueOf, Put, Overlaps;
    var n := |regs| - 1;
    PrefixWellFormed(cfg, regs, n);
    var before := Process(cfg, pol, w, regs[..n], img);
    if c in before.changes {
      ChangesNamed(cfg, pol, w, regs[..n], img, c);
    } else {
      assert regs[n] in regs;
    }
  }

  lemma SameName(cfg: Config, defs: seq<RegisterDef>, i: nat, e: RegisterDef)
    requires WellFormed(cfg, defs) && i < |defs| && e in defs
    ensures e.name == defs[i].name ==> e == defs[i]
  {
    var k :| 0 <= k < |defs| && defs[k] == e;
    assert k < i ==> defs[k].name != defs[i].name;
    assert i < k ==> defs[i].name != defs[k].name;
  }

  /** Whatever else a write does, raising included: a register that it does not reach in full, or against whose value
      something stands, keeps words and value, and is not reported. */
  lemma BarredStays(cfg: Config, pol: Policy, w: Write, defs: seq<RegisterDef>, img: Image, i: nat)
    requires Placeable(cfg, defs) && img.Fits(cfg) && i < |defs| && Sixteen(w)
    requires defs[i].registerType.Input? || !Reaches(w, defs[i])
      || exists v :: Offers(cfg, w, defs[i], v) && Barred(pol, defs[i], v)
    ensures Placeable(cfg, Affected(defs, w.address, |w.values|, Holding))
    ensures var d, out := defs[i], Process(cfg, pol, w, Affected(defs, w.address, |w.values|, Holding), img);
      && AllPlaced(cfg, defs, out.img) && d.name in AllValues(cfg, defs, img) && d.name in AllValues(cfg, defs, out.img)
      && RawOf(d, out.img) == RawOf(d, img)
      && AllValues(cfg, defs, out.img)[d.name] == AllValues(cfg, defs, img)[d.name]
      && forall c :: c in out.changes ==> c.name != d.name
  {
    AffectedPlaceable(cfg, defs, w);
    var d, regs := defs[i], Affected(defs, w.address, |w.values|, Holding);
    var out := Process(cfg, pol, w, regs, img);
    ReceivedIs(cfg, w, d);
    if Reaches(w, d) {
      if v :| Offers(cfg, w, d, v) && Barred(pol, d, v) {
        DecisionMeans(cfg, pol, w, d, v);
      }
    }
    assert d.registerType.Input? || Decision(cfg, pol, w, d).None?;
    UndecidedKept(cfg, pol, w, defs, img, i);
    AllValuesAt(cfg, defs, img, i);
    AllValuesAt(cfg, defs, out.img, i);
    hide Decision, Process, Affected, AllValues, Physical, RawOf, Offers, Barred, Overlaps;
    forall c | c in out.changes ensures c.name != d.name {
      ChangesNamed(cfg, pol, w, regs, img, c);
      var e :| e in regs && e.name == c.name && Decision(cfg, pol, w, e).Some?;
      AffectedMembers(defs, w.address, |w.values|, Holding, e);
      SameName(cfg, defs, i, e);
    }
  }

  // ---- Writes that come through ----

  /** If nothing stands against the value and the write does not raise, the register then stores the value, or the
      bound it is beyond. */
  lemma AdmittedStored(cfg: Config, pol: Policy, w: Write, defs: seq<RegisterDef>, img: Image, i: nat, v: real, y: real)
    requires Placeable(cfg, defs) && img.Fits(cfg) && i < |defs| && Sixteen(w)
    requires defs[i].registerType.Holding? && Reaches(w, defs[i]) && Offers(cfg, w, defs[i], v)
    requires !Barred(pol, defs[i], v) && Admitted(pol, defs[i].name, v, y)
    requires Placeable(cfg, Affected(defs, w.address, |w.values|, Holding))
    requires Process(cfg, pol, w, Affected(defs, w.address, |w.values|, Holding), img).error.None?
    ensures var d, out := defs[i], Process(cfg, pol, w, Affected(defs, w.address, |w.values|, Holding), img);
      && AllPlaced(cfg, defs, out.img) && d.name in AllValues(cfg, defs, out.img)
      && exists k :: Stores(d, y, k) && AllValues(cfg, defs, out.img)[d.name] == Over(k, d.scale)
  {
    var out := Process(cfg, pol, w, Affected(defs, w.address, |w.values|, Holding), img);
    hide Process, Affected, AllValues, WellFormed, ValidDefs, Image.Fits, Offers, Barred, Admitted, Stores, ValueOf;
    AllValuesAt(cfg, defs, out.img, i);
    AdmittedShown(cfg, pol, w, defs, img, i, v, y);
  }

  lemma AdmittedShown(cfg: Config, pol: Policy, w: Write, defs: seq<RegisterDef>, img: Image, i: nat, v: real, y: real)
    requires Placeable(cfg, defs) && img.Fits(cfg) && i < |defs| && Sixteen(w)
    requires defs[i].registerType.Holding? && Reaches(w, defs[i]) && Offers(cfg, w, defs[i], v)
    requires !Barred(pol, defs[i], v) && Admitted(pol, defs[i].name, v, y)
    requires Placeable(cfg, Affected(defs, w.address, |w.values|, Holding))
    requires Process(cfg, pol, w, Affected(defs, w.address, |w.values|, Holding), img).error.None?
    ensures var d, out := defs[i], Process(cfg, pol, w, Affected(defs, w.address, |w.values|, Holding), img);
      exists k :: Stores(d, y, k) && ValueOf(cfg, d, out.img) == Over(k, d.scale)
  {
    DecisionMeans(cfg, pol, w, defs[i], v);
    hide Process, Affected, Decision, Stores, ValueOf, Offers, Barred, Admitted, Overlaps;
    AdmittedOnce(pol, defs[i].name, v, Decision(cfg, pol, w, defs[i]).value, y);
    DecidedValue(cfg, pol, w, defs, img, i);
  }

  lemma AdmittedOnce(pol: Policy, n: Name, v: real, x: real, y: real)
    requires Admitted(pol, n, v, x) && Admitted(pol, n, v, y)
    ensures x == y
  {}

  lemma DecidedValue(cfg: Config, pol: Policy, w: Write, defs: seq<RegisterDef>, img: Image, i: nat)
    requires Placeable(cfg, defs) && img.Fits(cfg) && i < |defs| && defs[i].registerType.Holding?
    requires Placeable(cfg, Affected(defs, w.address, |w.values|, Holding))
    requires Process(cfg, pol, w, Affected(defs, w.address, |w.values|, Holding), img).error.None?
    requires Decision(cfg, pol, w, defs[i]).Some?
    ensures var d, out := defs[i], Process(cfg, pol, w, Affected(defs, w.address, |w.values|, Holding), img);
      exists k :: Stores(d, Decision(cfg, pol, w, d).value, k) && ValueOf(cfg, d, out.img) == Over(k, d.scale)
  {
    var d, regs := defs[i], Affected(defs, w.address, |w.values|, Holding);
    hide Decision, Process, Affected, WordsFor, Physical, RawOf, Overlaps, Stores, Shows;
    AffectedDecided(cfg, pol, w, defs, d);
    var j :| 0 <= j < |regs| && regs[j] == d;
    DecidedWritten(cfg, pol, w, regs, img, j);
    StoredValue(cfg, d, Decision(cfg, pol, w, d).value, Process(cfg, pol, w, regs, img).img);
  }

  lemma StoredValue(cfg: Config, d: RegisterDef, y: real, img: Image)
    requires Placed(cfg, d, img) && WordsFor(cfg, d, y) == Ok(RawOf(d, img))
    ensures exists k :: Stores(d, y, k) && ValueOf(cfg, d, img) == Over(k, d.scale)
  {
    TakenIff(cfg, d, y);
    assert Codec.Below(65536, RawOf(d, img));
    hide WordsFor, Physical, RawOf, Stores, Shows;
    var k :| Stores(d, y, k);
    WordsMean(cfg, d, y, k);
    ValueMeans(cfg, d, RawOf(d, img), Over(k, d.scale));
  }

  lemma StoredRepresentable(d: RegisterDef, y: real, k: int)
    requires d.Valid() && Representable(d, y) && Stores(d, y, k)
    ensures Over(k, d.scale) == y
  {
    ScaledIsBy(d, y);
    RoundNear(By(y, d.scale), k);
    QuotientIff(y, d.scale, k as real);
    hide By, Scaled, Round;
  }

  ghost predicate Inside(rule: WriteRule, v: real) {
    !Below(rule, v) && !Above(rule, v)
  }

  /** The rule's bounds can be held, if it clamps to them. */
  ghost predicate Holdable(rule: WriteRule, d: RegisterDef) {
    rule.clamp ==>
      && (rule.min.Some? ==> Representable(d, rule.min.value)) && (rule.max.Some? ==> Representable(d, rule.max.value))
  }

  /** The value a register shows before a write, and after one that did not raise. */
  ghost predicate Changes(cfg: Config, pol: Policy, w: Write, defs: seq<RegisterDef>, img: Image, i: nat, y: real)
    requires Placeable(cfg, defs) && img.Fits(cfg) && i < |defs|
    requires Placeable(cfg, Affected(defs, w.address, |w.values|, Holding))
  {
    var d, out := defs[i], Process(cfg, pol, w, Affected(defs, w.address, |w.values|, Holding), img);
    && ValueOf(cfg, d, out.img) == y && ValueOf(cfg, d, img) != y
  }

  /** A register that a write changed without raising shows a value within its rule's bounds. */
  lemma ChangedIsInside(cfg: Config, pol: Policy, w: Write, defs: seq<RegisterDef>, img: Image, i: nat, y: real)
    requires Placeable(cfg, defs) && img.Fits(cfg) && i < |defs| && Sixteen(w) && ValidRules(pol)
    requires defs[i].name in pol.rules && Holdable(pol.rules[defs[i].name], defs[i])
    requires Placeable(cfg, Affected(defs, w.address, |w.values|, Holding))
    requires Process(cfg, pol, w, Affected(defs, w.address, |w.values|, Holding), img).error.None?
    requires Changes(cfg, pol, w, defs, img, i, y)
    ensures defs[i].registerType.Holding? && Reaches(w, defs[i]) && defs[i].writable
    ensures Inside(pol.rules[defs[i].name], y)
    ensures exists v :: Offers(cfg, w, defs[i], v) && Admitted(pol, defs[i].name, v, y)
  {
    var d, regs := defs[i], Affected(defs, w.address, |w.values|, Holding);
    var out := Process(cfg, pol, w, regs, img);
    ReceivedIs(cfg, w, d);
    if d.registerType.Input? || Decision(cfg, pol, w, d).None? {
      UndecidedKept(cfg, pol, w, defs, img, i);
    }
    hide Process, Affected, Overlaps, Decision, Offers, Barred, Stores, Inside, Admitted, Representable, Holdable;
    assert d.registerType.Holding? && Decision(cfg, pol, w, d).Some?;
    var v := OfferedValue(cfg, pol, w, d);
    var x := Decision(cfg, pol, w, d).value;
    HeldExactly(cfg, pol, w, d, v, x);
    DecidedValue(cfg, pol, w, defs, img, i);
    var k :| Stores(d, x, k) && ValueOf(cfg, d, out.img) == Over(k, d.scale);
    StoredRepresentable(d, x, k);
    AdmittedInside(pol, d, v, x);
  }

  lemma DecidedReceived(cfg: Config, pol: Policy, w: Write, d: RegisterDef)
    requires d.Valid() && Sixteen(w) && Decision(cfg, pol, w, d).Some?
    ensures Reaches(w, d) && w.Received(d).Some? && Codec.Below(65536, w.Received(d).value)
  {
    ReceivedIs(cfg, w, d);
    ReceivedWords(w, d);
    hide Reaches, Sixteen, Physical, Write.Received;
  }

  lemma OfferedValue(cfg: Config, pol: Policy, w: Write, d: RegisterDef) returns (v: real)
    requires d.Valid() && Sixteen(w) && Decision(cfg, pol, w, d).Some?
    ensures Reaches(w, d) && Offers(cfg, w, d, v) && !Barred(pol, d, v)
    ensures Admitted(pol, d.name, v, Decision(cfg, pol, w, d).value)
  {
    DecidedReceived(cfg, pol, w, d);
    hide *;
    v := Physical(cfg, d, w.Received(d).value);
    ValueMeans(cfg, d, w.Received(d).value, v);
    OffersReceived(cfg, w, d, v);
    DecisionMeans(cfg, pol, w, d, v);
  }

  lemma AdmittedInside(pol: Policy, d: RegisterDef, v: real, y: real)
    requires ValidRules(pol) && d.name in pol.rules && !Barred(pol, d, v) && Admitted(pol, d.name, v, y)
    ensures Inside(pol.rules[d.name], y)
  {}

  /** An admitted value can be held. */
  lemma HeldExactly(cfg: Config, pol: Policy, w: Write, d: RegisterDef, v: real, x: real)
    requires d.Valid() && d.name in pol.rules && Holdable(pol.rules[d.name], d) && !Barred(pol, d, v)
    requires Reaches(w, d) && Offers(cfg, w, d, v) && Admitted(pol, d.name, v, x) && Sixteen(w)
    ensures Representable(d, x)
  {
    ReceivedIs(cfg, w, d);
    ReceivedWords(w, d);
    hide Representable, Physical, Shows, Codec.Below, Sixteen, Write.Received, Reaches, Offers, WordsFor;
    OffersReceived(cfg, w, d, v);
    ValueMeans(cfg, d, w.Received(d).value, v);
    WordsBack(cfg, d, w.Received(d).value);
  }

  // ---- Writes that raise ----

  /** The write has a value for the register that nothing stands against, and what it comes to cannot be stored. */
  ghost predicate Unstorable(cfg: Config, pol: Policy, w: Write, d: RegisterDef)
    requires d.Valid()
  {
    && d.registerType.Holding? && Reaches(w, d)
    && exists v, y :: Offers(cfg, w, d, v) && !Barred(pol, d, v) && Admitted(pol, d.name, v, y)
                      && forall k :: !Stores(d, y, k)
  }

  lemma UnstorableIff(cfg: Config, pol: Policy, w: Write, d: RegisterDef)
    requires d.Valid() && d.registerType.Holding? && Sixteen(w)
    ensures Unstorable(cfg, pol, w, d)
      <==> Decision(cfg, pol, w, d).Some? && WordsFor(cfg, d, Decision(cfg, pol, w, d).value).Err?
  {
    hide Offers, Barred, Admitted, Stores, WordsFor, Sixteen, Decision, Reaches;
    if Decision(cfg, pol, w, d).Some? {
      var x := Decision(cfg, pol, w, d).value;
      var v := OfferedValue(cfg, pol, w, d);
      TakenIff(cfg, d, x);
    }
    if Unstorable(cfg, pol, w, d) {
      var v, y :| Offers(cfg, w, d, v) && !Barred(pol, d, v) && Admitted(pol, d.name, v, y)
                  && forall k :: !Stores(d, y, k);
      DecisionMeans(cfg, pol, w, d, v);
      AdmittedOnce(pol, d.name, v, Decision(cfg, pol, w, d).value, y);
      TakenIff(cfg, d, y);
    }
  }

  /** A write raises exactly when some register is to store what it cannot hold. */
  lemma RaisesMeans(cfg: Config, pol: Policy, w: Write, defs: seq<RegisterDef>, img: Image)
    requires Placeable(cfg, defs) && img.Fits(cfg) && Sixteen(w)
    ensures Placeable(cfg, Affected(defs, w.address, |w.values|, Holding))
    ensures Process(cfg, pol, w, Affected(defs, w.address, |w.values|, Holding), img).error.Some?
      <==> exists d :: d in defs && Unstorable(cfg, pol, w, d)
  {
    AffectedPlaceable(cfg, defs, w);
    var regs := Affected(defs, w.address, |w.values|, Holding);
    RaisesIff(cfg, pol, w, regs, img);
    hide Process, Affected, Decision, WordsFor, Unstorable, Overlaps;
    forall d | d in defs
      ensures Unstorable(cfg, pol, w, d) <==>
        d in regs && Decision(cfg, pol, w, d).Some? && WordsFor(cfg, d, Decision(cfg, pol, w, d).value).Err?
    {
      AffectedMembers(defs, w.address, |w.values|, Holding, d);
      if d.registerType.Holding? {
        UnstorableIff(cfg, pol, w, d);
        if Decision(cfg, pol, w, d).Some? { AffectedDecided(cfg, pol, w, defs, d); }
      } else {
        InputStorable(cfg, pol, w, d);
      }
    }
    forall d | d in regs ensures d in defs {
      AffectedMembers(defs, w.address, |w.values|, Holding, d);
    }
  }

  lemma InputStorable(cfg: Config, pol: Policy, w: Write, d: RegisterDef)
    requires d.Valid() && d.registerType.Input?
    ensures !Unstorable(cfg, pol, w, d)
  {}
}
