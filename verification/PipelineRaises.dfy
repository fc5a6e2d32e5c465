/** A write that raises half-way: which words it leaves behind, and when it leaves none. */
module PipelineRaises {
  import opened Numeric
  import opened Codec
  import opened RegisterModel
  import opened PipelineModel
  import opened PipelineLaws

  /** The first register whose decided value cannot be encoded. */
  ghost predicate FailsAt(cfg: Config, pol: Policy, w: Write, regs: seq<RegisterDef>, k: nat)
    requires ValidDefs(regs) && k < |regs|
  {
    && Encodable(cfg, pol, w, regs[..k]) && Decision(cfg, pol, w, regs[k]).Some?
    && WordsFor(cfg, regs[k], Decision(cfg, pol, w, regs[k]).value).Err?
  }

  /** The decided registers hold their words already. */
  ghost predicate Already(cfg: Config, pol: Policy, w: Write, regs: seq<RegisterDef>, img: Image)
    requires Placeable(cfg, regs) && img.Fits(cfg)
  {
    forall d :: d in regs && Decision(cfg, pol, w, d).Some? ==>
      WordsFor(cfg, d, Decision(cfg, pol, w, d).value) == Ok(RawOf(d, img))
  }

  lemma {:induction false} FirstFailure(cfg: Config, pol: Policy, w: Write, regs: seq<RegisterDef>) returns (k: nat)
    requires ValidDefs(regs) && !Encodable(cfg, pol, w, regs)
    ensures k < |regs| && FailsAt(cfg, pol, w, regs, k)
  {
    hide Decision, WordsFor;
    var n := |regs| - 1;
    if Encodable(cfg, pol, w, regs[..n]) {
      k := n;
      assert forall d :: d in regs ==> d in regs[..n] || d == regs[n];
    } else {
      k := FirstFailure(cfg, pol, w, regs[..n]);
      assert regs[..n][..k] == regs[..k];
    }
  }

  /** The failing register stops the write: everything is as the registers before it left it. */
  lemma {:induction false} StopsAt(cfg: Config, pol: Policy, w: Write, regs: seq<RegisterDef>, img: Image, k: nat)
    requires Placeable(cfg, regs) && img.Fits(cfg) && k < |regs| && FailsAt(cfg, pol, w, regs, k)
    ensures Placeable(cfg, regs[..k])
    ensures Process(cfg, pol, w, regs, img) == Process(cfg, pol, w, regs[..k], img).(
      error := Some(WordsFor(cfg, regs[k], Decision(cfg, pol, w, regs[k]).value).error))
  {
    PrefixWellFormed(cfg, regs, k);
    PrefixWellFormed(cfg, regs, |regs| - 1);
    hide Decision, WordsFor, Encodable, WellFormed;
    if k == |regs| - 1 {
      FailsHere(cfg, pol, w, regs, img);
    } else {
      assert regs[..|regs| - 1][..k] == regs[..k];
      StopsAt(cfg, pol, w, regs[..|regs| - 1], img, k);
      ErrorStays(cfg, pol, w, regs, img);
    }
  }

  lemma FailsHere(cfg: Config, pol: Policy, w: Write, regs: seq<RegisterDef>, img: Image)
    requires Placeable(cfg, regs) && img.Fits(cfg) && regs != [] && FailsAt(cfg, pol, w, regs, |regs| - 1)
    ensures Placeable(cfg, regs[..|regs| - 1])
    ensures Process(cfg, pol, w, regs, img) == Process(cfg, pol, w, regs[..|regs| - 1], img).(
      error := Some(WordsFor(cfg, regs[|regs| - 1], Decision(cfg, pol, w, regs[|regs| - 1]).value).error))
  {
    PrefixWellFormed(cfg, regs, |regs| - 1);
    RaisesIff(cfg, pol, w, regs[..|regs| - 1], img);
    hide Decision, WordsFor, Encodable, WellFormed;
  }

  lemma ErrorStays(cfg: Config, pol: Policy, w: Write, regs: seq<RegisterDef>, img: Image)
    requires Placeable(cfg, regs) && img.Fits(cfg) && regs != []
    ensures Placeable(cfg, regs[..|regs| - 1])
    ensures var before := Process(cfg, pol, w, regs[..|regs| - 1], img);
      before.error.Some? ==> Process(cfg, pol, w, regs, img) == before
  {
    PrefixWellFormed(cfg, regs, |regs| - 1);
    hide Step, WellFormed;
  }

  /** A raising write has carried out one simultaneous update of the registers before the failing one, and nothing
      else. It leaves all words alone exactly when those registers held their words already. */
  lemma HalfWritten(cfg: Config, pol: Policy, w: Write, regs: seq<RegisterDef>, img: Image) returns (k: nat)
    requires Placeable(cfg, regs) && img.Fits(cfg) && Process(cfg, pol, w, regs, img).error.Some?
    ensures k < |regs| && FailsAt(cfg, pol, w, regs, k) && Placeable(cfg, regs[..k])
    ensures Simultaneous(cfg, pol, w, regs[..k], img, Process(cfg, pol, w, regs, img).img)
    ensures Process(cfg, pol, w, regs, img).img == img <==> Already(cfg, pol, w, regs[..k], img)
  {
    RaisesIff(cfg, pol, w, regs, img);
    k := FirstFailure(cfg, pol, w, regs);
    StopsAt(cfg, pol, w, regs, img, k);
    IsSimultaneous(cfg, pol, w, regs[..k], img);
    hide Process, Decision, WordsFor, Encodable, RawOf, Written;
    if Already(cfg, pol, w, regs[..k], img) {
      SimultaneousUnique(cfg, pol, w, regs[..k], img, img, Process(cfg, pol, w, regs, img).img);
    }
  }

  /** Two 16-bit registers, the second with a clamping limit of 0.5: writing 5 and 1 raises and leaves the 5. */
  lemma HalfWrittenInput(cfg: Config, a: RegisterDef, b: RegisterDef, img: Image)
    requires a.address == 0 && a.dataType == IntType(1, false) && a.scale == 1.0
    requires a.writable && a.registerType.Holding?
    requires b.address == 1 && b.dataType == IntType(1, false) && b.scale == 1.0 && b.writable && a.name != b.name
    requires cfg.size == 2 && img.Fits(cfg)
    ensures Placeable(cfg, [a, b])
    ensures var pol := Policy([], map[b.name := WriteRule(None, Some(0.5), true)]);
      var out := Process(cfg, pol, Write(0, [5, 1]), [a, b], img);
      out.error == Some(NotInteger(0.5)) && out.img.hr[0] == 5
  {
    var pol := Policy([], map[b.name := WriteRule(None, Some(0.5), true)]);
    var w := Write(0, [5, 1]);
    assert w.Received(a).value == [5] && w.Received(b).value == [1];
    WordsBack(cfg, a, [5]);
    assert Decision(cfg, pol, w, b) == Some(0.5);
    assert WordsFor(cfg, b, 0.5) == Err(NotInteger(0.5));
    assert Decision(cfg, pol, w, a) == Some(Physical(cfg, a, [5]));
    hide Decision, WordsFor, Physical;
    assert [a, b][..1] == [a] && [a][..0] == [];
    StopsAt(cfg, pol, w, [a, b], img, 1);
    DecidedWritten(cfg, pol, w, [a], img, 0);
  }
}
