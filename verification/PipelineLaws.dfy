/** A raw write amounts to one simultaneous update, in whatever order the registers are handled. */
module PipelineLaws {
  import opened Numeric
  import opened Codec
  import opened RegisterModel
  import opened PipelineModel

  /** Every decided value can be encoded. */
  ghost predicate Encodable(cfg: Config, pol: Policy, w: Write, regs: seq<RegisterDef>)
    requires ValidDefs(regs)
  {
    forall d :: d in regs && Decision(cfg, pol, w, d).Some? ==> WordsFor(cfg, d, Decision(cfg, pol, w, d).value).Ok?
  }

  /** Some written register has the address. */
  ghost predicate Written(cfg: Config, pol: Policy, w: Write, regs: seq<RegisterDef>, t: RegisterType, a: nat)
    requires ValidDefs(regs)
  {
    exists d :: d in regs && d.registerType == t && Decision(cfg, pol, w, d).Some? && Covers(d, a)
  }

  /** All decided registers hold their words, and every other word is as before. */
  ghost predicate Simultaneous(cfg: Config, pol: Policy, w: Write, regs: seq<RegisterDef>, img: Image, img': Image)
    requires Placeable(cfg, regs) && img.Fits(cfg) && img'.Fits(cfg)
  {
    && (forall d :: d in regs && Decision(cfg, pol, w, d).Some? ==>
          WordsFor(cfg, d, Decision(cfg, pol, w, d).value) == Ok(RawOf(d, img')))
    && (forall t, a :: 0 <= a < cfg.size && !Written(cfg, pol, w, regs, t, a) ==> img'.Regs(t)[a] == img.Regs(t)[a])
  }

  // ---- One register after the other ----

  lemma StepRaw(cfg: Config, pol: Policy, w: Write, d: RegisterDef, before: Outcome, e: RegisterDef)
    requires Placed(cfg, d, before.img) && e.Valid() && e.End() <= cfg.size && !Overlaps(d, e)
    ensures RawOf(e, Step(cfg, pol, w, d, before).img) == RawOf(e, before.img)
  {
    var v := Decision(cfg, pol, w, d);
    if v.Some? && WordsFor(cfg, d, v.value).Ok? {
      PutElsewhere(d, WordsFor(cfg, d, v.value).value, e, before.img);
    }
  }

  /** A register disjoint from all handled ones keeps its words. */
  lemma {:induction false} OutsideKept(cfg: Config, pol: Policy, w: Write, regs: seq<RegisterDef>, img: Image,
      e: RegisterDef)
    requires Placeable(cfg, regs) && img.Fits(cfg) && e.Valid() && e.End() <= cfg.size
    requires forall d :: d in regs ==> !Overlaps(d, e)
    ensures RawOf(e, Process(cfg, pol, w, regs, img).img) == RawOf(e, img)
  {
    hide Step, Overlaps, Decision;
    if regs != [] {
      PrefixWellFormed(cfg, regs, |regs| - 1);
      OutsideKept(cfg, pol, w, regs[..|regs| - 1], img, e);
      StepRaw(cfg, pol, w, regs[|regs| - 1], Process(cfg, pol, w, regs[..|regs| - 1], img), e);
    }
  }

  lemma StepWord(cfg: Config, pol: Policy, w: Write, d: RegisterDef, before: Outcome, t: RegisterType, a: nat)
    requires Placed(cfg, d, before.img) && a < cfg.size
    requires !(d.registerType == t && Decision(cfg, pol, w, d).Some? && Covers(d, a))
    ensures Step(cfg, pol, w, d, before).img.Regs(t)[a] == before.img.Regs(t)[a]
  {
    hide Decision, WordsFor;
  }

  lemma {:induction false} OtherWordsKept(cfg: Config, pol: Policy, w: Write, regs: seq<RegisterDef>, img: Image,
                                          t: RegisterType, a: nat)
    requires Placeable(cfg, regs) && img.Fits(cfg) && a < cfg.size && !Written(cfg, pol, w, regs, t, a)
    ensures Process(cfg, pol, w, regs, img).img.Regs(t)[a] == img.Regs(t)[a]
  {
    hide Step, Overlaps, Decision;
    if regs != [] {
      var n := |regs| - 1;
      PrefixWellFormed(cfg, regs, n);
      assert forall d :: d in regs[..n] ==> d in regs;
      assert regs[n] in regs;
      OtherWordsKept(cfg, pol, w, regs[..n], img, t, a);
      StepWord(cfg, pol, w, regs[n], Process(cfg, pol, w, regs[..n], img), t, a);
    }
  }

  lemma StepWrites(cfg: Config, pol: Policy, w: Write, d: RegisterDef, before: Outcome)
    requires Placed(cfg, d, before.img) && before.error.None? && Decision(cfg, pol, w, d).Some?
    ensures var words := WordsFor(cfg, d, Decision(cfg, pol, w, d).value);
      if words.Ok? then RawOf(d, Step(cfg, pol, w, d, before).img) == words.value
      else Step(cfg, pol, w, d, before).error.Some?
  {
    hide Decision, WordsFor;
    var words := WordsFor(cfg, d, Decision(cfg, pol, w, d).value);
    if words.Ok? {
      PutGet(d, words.value, before.img);
    }
  }

  lemma {:induction false} DecidedWritten(cfg: Config, pol: Policy, w: Write, regs: seq<RegisterDef>, img: Image,
      i: nat)
    requires Placeable(cfg, regs) && img.Fits(cfg) && i < |regs|
    requires Process(cfg, pol, w, regs, img).error.None? && Decision(cfg, pol, w, regs[i]).Some?
    ensures WordsFor(cfg, regs[i], Decision(cfg, pol, w, regs[i]).value) ==
      Ok(RawOf(regs[i], Process(cfg, pol, w, regs, img).img))
  {
    hide Step, Overlaps, Decision, WordsFor, RawOf;
    var n := |regs| - 1;
    PrefixWellFormed(cfg, regs, n);
    var before := Process(cfg, pol, w, regs[..n], img);
    if i < n {
      DecidedWritten(cfg, pol, w, regs[..n], img, i);
      Apart(cfg, regs, i, n);
      StepRaw(cfg, pol, w, regs[n], before, regs[i]);
    } else {
      StepWrites(cfg, pol, w, regs[n], before);
    }
  }

  lemma Apart(cfg: Config, regs: seq<RegisterDef>, i: nat, n: nat)
    requires WellFormed(cfg, regs) && i < n < |regs|
    ensures !Overlaps(regs[n], regs[i]) && regs[i].End() <= cfg.size && regs[n].End() <= cfg.size
  {
    assert !Overlaps(regs[i], regs[n]);
  }

  lemma StepError(cfg: Config, pol: Policy, w: Write, d: RegisterDef, before: Outcome)
    requires Placed(cfg, d, before.img) && before.error.None?
    ensures Step(cfg, pol, w, d, before).error.Some? <==>
      Decision(cfg, pol, w, d).Some? && WordsFor(cfg, d, Decision(cfg, pol, w, d).value).Err?
  {}

  /** The write raises exactly when some register is to be set to a value that cannot be encoded. */
  lemma {:induction false} RaisesIff(cfg: Config, pol: Policy, w: Write, regs: seq<RegisterDef>, img: Image)
    requires Placeable(cfg, regs) && img.Fits(cfg)
    ensures Process(cfg, pol, w, regs, img).error.None? <==> Encodable(cfg, pol, w, regs)
  {
    hide Step, Overlaps, Decision, WordsFor;
    if regs != [] {
      var n := |regs| - 1;
      PrefixWellFormed(cfg, regs, n);
      RaisesIff(cfg, pol, w, regs[..n], img);
      var before := Process(cfg, pol, w, regs[..n], img);
      if before.error.None? {
        StepError(cfg, pol, w, regs[n], before);
      }
      assert regs == regs[..n] + [regs[n]];
      assert forall d :: d in regs <==> d in regs[..n] || d == regs[n];
    }
  }

  lemma IsSimultaneous(cfg: Config, pol: Policy, w: Write, regs: seq<RegisterDef>, img: Image)
    requires Placeable(cfg, regs) && img.Fits(cfg) && Encodable(cfg, pol, w, regs)
    ensures Process(cfg, pol, w, regs, img).error.None?
    ensures Simultaneous(cfg, pol, w, regs, img, Process(cfg, pol, w, regs, img).img)
  {
    RaisesIff(cfg, pol, w, regs, img);
    hide Process, Decision, WordsFor, RawOf, Written, Overlaps, Encodable;
    var img' := Process(cfg, pol, w, regs, img).img;
    forall d | d in regs && Decision(cfg, pol, w, d).Some?
      ensures WordsFor(cfg, d, Decision(cfg, pol, w, d).value) == Ok(RawOf(d, img'))
    {
      var i :| 0 <= i < |regs| && regs[i] == d;
      DecidedWritten(cfg, pol, w, regs, img, i);
    }
    forall t, a | 0 <= a < cfg.size && !Written(cfg, pol, w, regs, t, a)
      ensures img'.Regs(t)[a] == img.Regs(t)[a]
    {
      OtherWordsKept(cfg, pol, w, regs, img, t, a);
    }
  }

  // ---- The update determines the outcome, so the order does not matter ----

  lemma SameRaw(d: RegisterDef, x: Image, y: Image, t: RegisterType, a: nat)
    requires d.registerType == t && d.End() <= |x.Regs(t)| && d.End() <= |y.Regs(t)| && Covers(d, a)
    requires RawOf(d, x) == RawOf(d, y)
    ensures x.Regs(t)[a] == y.Regs(t)[a]
  {
    assert x.Regs(t)[a] == RawOf(d, x)[a - d.address] && y.Regs(t)[a] == RawOf(d, y)[a - d.address];
  }

  lemma SameWord(cfg: Config, pol: Policy, w: Write, regs: seq<RegisterDef>, img: Image, x: Image, y: Image,
                 t: RegisterType, a: nat)
    requires Placeable(cfg, regs) && img.Fits(cfg) && x.Fits(cfg) && y.Fits(cfg) && a < cfg.size
    requires Simultaneous(cfg, pol, w, regs, img, x) && Simultaneous(cfg, pol, w, regs, img, y)
    ensures x.Regs(t)[a] == y.Regs(t)[a]
  {
    hide Decision, WordsFor, RawOf, Below, Overlaps;
    if Written(cfg, pol, w, regs, t, a) {
      var d :| d in regs && d.registerType == t && Decision(cfg, pol, w, d).Some? && Covers(d, a);
      assert RawOf(d, x) == RawOf(d, y);
      SameRaw(d, x, y, t, a);
    }
  }

  lemma SimultaneousUnique(cfg: Config, pol: Policy, w: Write, regs: seq<RegisterDef>, img: Image, x: Image, y: Image)
    requires Placeable(cfg, regs) && img.Fits(cfg) && x.Fits(cfg) && y.Fits(cfg)
    requires Simultaneous(cfg, pol, w, regs, img, x) && Simultaneous(cfg, pol, w, regs, img, y)
    ensures x == y
  {
    hide Simultaneous;
    forall a | 0 <= a < cfg.size ensures x.hr[a] == y.hr[a] && x.ir[a] == y.ir[a] {
      SameWord(cfg, pol, w, regs, img, x, y, Holding, a);
      SameWord(cfg, pol, w, regs, img, x, y, Input, a);
    }
  }

  lemma SameSet(cfg: Config, pol: Policy, w: Write, regs: seq<RegisterDef>, other: seq<RegisterDef>,
      img: Image, x: Image)
    requires Placeable(cfg, regs) && Placeable(cfg, other) && img.Fits(cfg) && x.Fits(cfg)
    requires forall d :: d in regs <==> d in other
    requires Simultaneous(cfg, pol, w, other, img, x)
    ensures Simultaneous(cfg, pol, w, regs, img, x)
  {
    hide Decision, WordsFor, RawOf, WellFormed;
    forall t, a | 0 <= a < cfg.size && !Written(cfg, pol, w, regs, t, a) ensures x.Regs(t)[a] == img.Regs(t)[a] {
      assert !Written(cfg, pol, w, other, t, a);
    }
  }

  /** The definition order changes neither whether a write raises nor the words it leaves if it does not. */
  lemma OrderIrrelevant(cfg: Config, pol: Policy, w: Write, regs: seq<RegisterDef>, other: seq<RegisterDef>, img: Image)
    requires Placeable(cfg, regs) && Placeable(cfg, other) && img.Fits(cfg)
    requires forall d :: d in regs <==> d in other
    ensures Process(cfg, pol, w, regs, img).error.None? <==> Process(cfg, pol, w, other, img).error.None?
    ensures Process(cfg, pol, w, regs, img).error.None? ==>
      Process(cfg, pol, w, regs, img).img == Process(cfg, pol, w, other, img).img
  {
    RaisesIff(cfg, pol, w, regs, img);
    RaisesIff(cfg, pol, w, other, img);
    hide Decision, WordsFor, Process, WellFormed, Simultaneous;
    assert Encodable(cfg, pol, w, regs) <==> Encodable(cfg, pol, w, other);
    if Encodable(cfg, pol, w, regs) {
      IsSimultaneous(cfg, pol, w, regs, img);
      IsSimultaneous(cfg, pol, w, other, img);
      var x, y := Process(cfg, pol, w, regs, img).img, Process(cfg, pol, w, other, img).img;
      SameSet(cfg, pol, w, regs, other, img, y);
      SimultaneousUnique(cfg, pol, w, regs, img, x, y);
    }
  }

  // ---- The returned list ----

  /** The changes in terms of the image before the write only. */
  function ChangesOf(cfg: Config, pol: Policy, w: Write, regs: seq<RegisterDef>, img: Image): seq<Change>
    requires Placeable(cfg, regs) && img.Fits(cfg)
  {
    if regs == [] then []
    else
      PrefixWellFormed(cfg, regs, |regs| - 1);
      var d := regs[|regs| - 1];
      var v := Decision(cfg, pol, w, d);
      ChangesOf(cfg, pol, w, regs[..|regs| - 1], img)
      + if v.Some? && ValueOf(cfg, d, img) != v.value then [Change(d.name, ValueOf(cfg, d, img), v.value)] else []
  }

  lemma StepChanges(cfg: Config, pol: Policy, w: Write, d: RegisterDef, before: Outcome, img: Image)
    requires Placed(cfg, d, before.img) && Placed(cfg, d, img) && RawOf(d, before.img) == RawOf(d, img)
    requires before.error.None? && Step(cfg, pol, w, d, before).error.None?
    ensures var v := Decision(cfg, pol, w, d);
      Step(cfg, pol, w, d, before).changes ==
        before.changes
        + if v.Some? && ValueOf(cfg, d, img) != v.value then [Change(d.name, ValueOf(cfg, d, img), v.value)] else []
  {
    hide Decision, WordsFor, RawOf, Physical;
    assert before.changes + [] == before.changes;
  }

  /** Old values are read before any of their words change. */
  lemma {:induction false} ReportedChanges(cfg: Config, pol: Policy, w: Write, regs: seq<RegisterDef>, img: Image)
    requires Placeable(cfg, regs) && img.Fits(cfg) && Process(cfg, pol, w, regs, img).error.None?
    ensures Process(cfg, pol, w, regs, img).changes == ChangesOf(cfg, pol, w, regs, img)
  {
    hide Step, Overlaps, Decision, WordsFor, RawOf, ValueOf;
    if regs != [] {
      var n := |regs| - 1;
      PrefixWellFormed(cfg, regs, n);
      ReportedChanges(cfg, pol, w, regs[..n], img);
      forall d | d in regs[..n] ensures !Overlaps(d, regs[n]) {
        var i :| 0 <= i < n && regs[i] == d;
      }
      OutsideKept(cfg, pol, w, regs[..n], img, regs[n]);
      StepChanges(cfg, pol, w, regs[n], Process(cfg, pol, w, regs[..n], img), img);
    }
  }

  ghost predicate Changed(cfg: Config, pol: Policy, w: Write, d: RegisterDef, img: Image, c: Change)
    requires Placed(cfg, d, img)
  {
    && Decision(cfg, pol, w, d).Some? && c.name == d.name
    && c.before == ValueOf(cfg, d, img) && c.after == Decision(cfg, pol, w, d).value && c.before != c.after
  }

  lemma {:induction false} ChangesExact(cfg: Config, pol: Policy, w: Write, regs: seq<RegisterDef>, img: Image,
      c: Change)
    requires Placeable(cfg, regs) && img.Fits(cfg)
    ensures c in ChangesOf(cfg, pol, w, regs, img) <==>
      exists i :: 0 <= i < |regs| && Changed(cfg, pol, w, regs[i], img, c)
  {
    hide Decision, ValueOf, Overlaps;
    if regs != [] {
      var n := |regs| - 1;
      PrefixWellFormed(cfg, regs, n);
      ChangesExact(cfg, pol, w, regs[..n], img, c);
      if i :| 0 <= i < |regs| && Changed(cfg, pol, w, regs[i], img, c) {
        if i < n {
          assert Changed(cfg, pol, w, regs[..n][i], img, c);
        }
      }
      if i :| 0 <= i < |regs[..n]| && Changed(cfg, pol, w, regs[..n][i], img, c) {
        assert Changed(cfg, pol, w, regs[i], img, c);
      }
      if Changed(cfg, pol, w, regs[n], img, c) {
        assert c == Change(regs[n].name, ValueOf(cfg, regs[n], img), Decision(cfg, pol, w, regs[n]).value);
      }
    }
  }

  // ---- Writes that no rule alters ----

  /** The rule lets the received value through as it is. */
  ghost predicate Unclamped(cfg: Config, pol: Policy, w: Write, d: RegisterDef)
    requires d.Valid()
  {
    w.Received(d).Some? && Decision(cfg, pol, w, d) == Some(Physical(cfg, d, w.Received(d).value))
  }

  lemma UnclampedStoresReceived(cfg: Config, pol: Policy, w: Write, regs: seq<RegisterDef>, img: Image, i: nat)
    requires Placeable(cfg, regs) && img.Fits(cfg) && Below(65536, w.values) && i < |regs|
    requires Process(cfg, pol, w, regs, img).error.None? && Unclamped(cfg, pol, w, regs[i])
    ensures Some(RawOf(regs[i], Process(cfg, pol, w, regs, img).img)) == w.Received(regs[i])
  {
    DecidedWritten(cfg, pol, w, regs, img, i);
    var d := regs[i];
    var words := w.Received(d).value;
    assert Below(65536, words);
    WordsBack(cfg, d, words);
  }

  // ---- The name-to-value map, for rules with representable bounds ----

  ghost predicate BoundsRepresentable(pol: Policy, defs: seq<RegisterDef>) {
    forall d :: d in defs && d.name in pol.rules && pol.rules[d.name].clamp ==>
      && (pol.rules[d.name].min.Some? ==> Representable(d, pol.rules[d.name].min.value))
      && (pol.rules[d.name].max.Some? ==> Representable(d, pol.rules[d.name].max.value))
  }

  lemma DecisionRepresentable(cfg: Config, pol: Policy, w: Write, defs: seq<RegisterDef>, d: RegisterDef)
    requires d.Valid() && d in defs && BoundsRepresentable(pol, defs) && Below(65536, w.values)
    requires Decision(cfg, pol, w, d).Some?
    ensures Representable(d, Decision(cfg, pol, w, d).value)
    ensures WordsFor(cfg, d, Decision(cfg, pol, w, d).value).Ok?
  {
    var words := w.Received(d).value;
    assert Below(65536, words);
    WordsBack(cfg, d, words);
    hide Representable, Physical, WordsFor;
    RepresentableWrites(cfg, d, Decision(cfg, pol, w, d).value);
  }

  /** The value a register has after the write. */
  function After(cfg: Config, pol: Policy, w: Write, d: RegisterDef, img: Image): real
    requires Placed(cfg, d, img)
  {
    Decision(cfg, pol, w, d).GetOr(ValueOf(cfg, d, img))
  }

  lemma AffectedDecided(cfg: Config, pol: Policy, w: Write, defs: seq<RegisterDef>, d: RegisterDef)
    requires ValidDefs(defs) && d in defs && d.registerType.Holding? && Decision(cfg, pol, w, d).Some?
    ensures d in Affected(defs, w.address, |w.values|, Holding)
  {
    AffectedMembers(defs, w.address, |w.values|, Holding, d);
  }

  /** Registers of every kind: the decided holding ones get their value, all others keep theirs. */
  lemma ValueAfter(cfg: Config, pol: Policy, w: Write, defs: seq<RegisterDef>, img: Image, i: nat)
    requires Placeable(cfg, defs) && img.Fits(cfg) && i < |defs| && Below(65536, w.values)
    requires BoundsRepresentable(pol, defs)
    ensures Placeable(cfg, Affected(defs, w.address, |w.values|, Holding))
    ensures var d, out := defs[i], Process(cfg, pol, w, Affected(defs, w.address, |w.values|, Holding), img);
      ValueOf(cfg, d, out.img) ==
        if d.registerType.Holding? then After(cfg, pol, w, d, img) else ValueOf(cfg, d, img)
  {
    AffectedPlaceable(cfg, defs, w);
    var regs, d := Affected(defs, w.address, |w.values|, Holding), defs[i];
    NoError(cfg, pol, w, defs, img);
    hide Decision, Process, WordsFor, Representable, Physical, RawOf, BoundsRepresentable, Affected;
    if d.registerType.Holding? && Decision(cfg, pol, w, d).Some? {
      AffectedDecided(cfg, pol, w, defs, d);
      var j :| 0 <= j < |regs| && regs[j] == d;
      DecidedWritten(cfg, pol, w, regs, img, j);
      DecisionRepresentable(cfg, pol, w, defs, d);
      ReadBack(cfg, d, Decision(cfg, pol, w, d).value);
    } else {
      UndecidedKept(cfg, pol, w, defs, img, i);
    }
  }

  lemma NoError(cfg: Config, pol: Policy, w: Write, defs: seq<RegisterDef>, img: Image)
    requires Placeable(cfg, defs) && img.Fits(cfg) && Below(65536, w.values) && BoundsRepresentable(pol, defs)
    ensures Placeable(cfg, Affected(defs, w.address, |w.values|, Holding))
    ensures Process(cfg, pol, w, Affected(defs, w.address, |w.values|, Holding), img).error.None?
  {
    AffectedPlaceable(cfg, defs, w);
    hide Decision, Process, WordsFor, Representable, Affected, BoundsRepresentable;
    var regs := Affected(defs, w.address, |w.values|, Holding);
    RaisesIff(cfg, pol, w, regs, img);
    forall d | d in regs && Decision(cfg, pol, w, d).Some?
      ensures WordsFor(cfg, d, Decision(cfg, pol, w, d).value).Ok?
    {
      AffectedMembers(defs, w.address, |w.values|, Holding, d);
      DecisionRepresentable(cfg, pol, w, defs, d);
    }
  }

  /** No written register shares an address with an undecided one. */
  lemma UndecidedKept(cfg: Config, pol: Policy, w: Write, defs: seq<RegisterDef>, img: Image, i: nat)
    requires Placeable(cfg, defs) && img.Fits(cfg) && i < |defs|
    requires Placeable(cfg, Affected(defs, w.address, |w.values|, Holding))
    requires defs[i].registerType.Input? || Decision(cfg, pol, w, defs[i]).None?
    ensures RawOf(defs[i], Process(cfg, pol, w, Affected(defs, w.address, |w.values|, Holding), img).img) ==
      RawOf(defs[i], img)
  {
    hide Decision, Process, Affected;
    var regs, d := Affected(defs, w.address, |w.values|, Holding), defs[i];
    var out := Process(cfg, pol, w, regs, img);
    forall a | d.address <= a < d.End() ensures out.img.Regs(d.registerType)[a] == img.Regs(d.registerType)[a] {
      forall e | e in regs && e.registerType == d.registerType && Decision(cfg, pol, w, e).Some?
        ensures !Covers(e, a)
      {
        AffectedMembers(defs, w.address, |w.values|, Holding, e);
        var k :| 0 <= k < |defs| && defs[k] == e;
        assert k < i ==> !Overlaps(defs[k], defs[i]);
        assert i < k ==> !Overlaps(defs[i], defs[k]);
      }
      assert !Written(cfg, pol, w, regs, d.registerType, a);
      OtherWordsKept(cfg, pol, w, regs, img, d.registerType, a);
    }
  }

  /** The returned names are exactly those whose value in the map changed. */
  lemma ReportsWhatChanged(cfg: Config, pol: Policy, w: Write, defs: seq<RegisterDef>, img: Image, i: nat)
    requires Placeable(cfg, defs) && img.Fits(cfg) && i < |defs| && Below(65536, w.values)
    requires BoundsRepresentable(pol, defs)
    ensures Placeable(cfg, Affected(defs, w.address, |w.values|, Holding))
    ensures var d, out := defs[i], Process(cfg, pol, w, Affected(defs, w.address, |w.values|, Holding), img);
      && out.error.None?
      && (ValueOf(cfg, d, out.img) != ValueOf(cfg, d, img) <==>
          Change(d.name, ValueOf(cfg, d, img), ValueOf(cfg, d, out.img)) in out.changes)
  {
    AffectedPlaceable(cfg, defs, w);
    NoError(cfg, pol, w, defs, img);
    ValueAfter(cfg, pol, w, defs, img, i);
    hide Decision, Process, Affected, ValueOf, BoundsRepresentable;
    var regs, d := Affected(defs, w.address, |w.values|, Holding), defs[i];
    var out := Process(cfg, pol, w, regs, img);
    var c := Change(d.name, ValueOf(cfg, d, img), ValueOf(cfg, d, out.img));
    ReportedChanges(cfg, pol, w, regs, img);
    ChangesExact(cfg, pol, w, regs, img, c);
    if ValueOf(cfg, d, out.img) != ValueOf(cfg, d, img) {
      AffectedDecided(cfg, pol, w, defs, d);
      var j :| 0 <= j < |regs| && regs[j] == d;
      assert Changed(cfg, pol, w, regs[j], img, c);
    }
  }

  // ---- Bounds a register cannot hold ----

  /** A 16-bit register with a clamping limit of 0.5: a received 1 becomes 0.5 and the write raises. */
  lemma HalfBoundRaises(cfg: Config, d: RegisterDef, img: Image)
    requires d.address == 0 && d.dataType == IntType(1, false) && d.scale == 1.0 && d.writable && cfg.size == 1
    requires img.Fits(cfg)
    ensures var pol := Policy([], map[d.name := WriteRule(None, Some(0.5), true)]);
      Process(cfg, pol, Write(0, [1]), [d], img).error == Some(NotInteger(0.5))
  {
    var pol := Policy([], map[d.name := WriteRule(None, Some(0.5), true)]);
    var w := Write(0, [1]);
    assert w.Received(d).value == [1];
    assert Decision(cfg, pol, w, d) == Some(0.5);
    assert WordsFor(cfg, d, 0.5) == Err(NotInteger(0.5));
    assert [d][..0] == [];
  }
}
