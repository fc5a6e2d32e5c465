/** What a raw write from the network does: which registers accept which value, and the words that follow.
    Writes are FC06 and FC16 requests: MODBUS Application Protocol Specification V1.1b3, sections 6.6 and 6.12. */
module PipelineModel {
  import opened Numeric
  import opened Codec
  import opened RegisterModel

  datatype WriteRule = WriteRule(min: Option<real>, max: Option<real>, clamp: bool) {
    /** The possibly clamped value, and whether it is rejected. */
    function Apply(v: real): (real, bool) {
      if min.Some? && v < min.value then (if clamp then (min.value, false) else (v, true))
      else if max.Some? && v > max.value then (if clamp then (max.value, false) else (v, true))
      else (v, false)
    }
  }

  type Validator = (Name, real) -> bool

  datatype Policy = Policy(validators: seq<Validator>, rules: map<Name, WriteRule>) {
    predicate Validated(n: Name, v: real) {
      forall i :: 0 <= i < |validators| ==> validators[i](n, v)
    }

    /** The value that passes the register's rule, if any does. */
    function Ruled(n: Name, v: real): Option<real> {
      if n !in rules then Some(v)
      else if rules[n].Apply(v).1 then None
      else Some(rules[n].Apply(v).0)
    }
  }

  datatype Write = Write(address: nat, values: seq<nat>) {
    /** The words a register receives, if the write covers all of it. */
    function Received(d: RegisterDef): (r: Option<seq<nat>>)
      ensures r.Some? ==> |r.value| == d.dataType.words
    {
      if d.address < address || d.End() > address + |values| then None
      else Some(values[d.address - address..d.End() - address])
    }
  }

  datatype Change = Change(name: Name, before: real, after: real)

  /** The physical value a register is set to, or None if it is not written. */
  function Decision(cfg: Config, pol: Policy, w: Write, d: RegisterDef): Option<real>
    requires d.Valid()
  {
    var received := w.Received(d);
    if received.None? || !d.writable then None
    else
      var v := Physical(cfg, d, received.value);
      if !pol.Validated(d.name, v) then None else pol.Ruled(d.name, v)
  }

  datatype Outcome = Outcome(img: Image, changes: seq<Change>, error: Option<Error>)

  ghost predicate Placeable(cfg: Config, regs: seq<RegisterDef>) {
    WellFormed(cfg, regs) && ValidDefs(regs)
  }

  function Step(cfg: Config, pol: Policy, w: Write, d: RegisterDef, before: Outcome): (r: Outcome)
    requires Placed(cfg, d, before.img)
    ensures r.img.Fits(cfg)
  {
    var v := Decision(cfg, pol, w, d);
    if v.None? then before
    else
      var words := WordsFor(cfg, d, v.value);
      if words.Err? then before.(error := Some(words.error))
      else
        var current := ValueOf(cfg, d, before.img);
        PutFits(cfg, d, words.value, before.img);
        Outcome(Put(d, words.value, before.img),
                before.changes + if current != v.value then [Change(d.name, current, v.value)] else [],
                None)
  }

  /** The registers are handled one after the other; an encoding error stops the rest. */
  function Process(cfg: Config, pol: Policy, w: Write, regs: seq<RegisterDef>, img: Image): (r: Outcome)
    requires Placeable(cfg, regs) && img.Fits(cfg)
    ensures r.img.Fits(cfg)
  {
    if regs == [] then Outcome(img, [], None)
    else
      PrefixWellFormed(cfg, regs, |regs| - 1);
      var before := Process(cfg, pol, w, regs[..|regs| - 1], img);
      if before.error.Some? then before else Step(cfg, pol, w, regs[|regs| - 1], before)
  }

  // ---- The registers a write affects are well placed too ----

  lemma {:induction false} AffectedPlaceable(cfg: Config, defs: seq<RegisterDef>, w: Write)
    requires Placeable(cfg, defs)
    ensures Placeable(cfg, Affected(defs, w.address, |w.values|, Holding))
  {
    if defs != [] {
      var n := |defs| - 1;
      var d := defs[n];
      PrefixWellFormed(cfg, defs, n);
      AffectedPlaceable(cfg, defs[..n], w);
      var front := Affected(defs[..n], w.address, |w.values|, Holding);
      forall e | e in front ensures e.name != d.name && !Overlaps(e, d) {
        AffectedMembers(defs[..n], w.address, |w.values|, Holding, e);
      }
      WellFormedAppend(cfg, front, d);
    }
  }
}
