/** The write pipeline object: raw words in, validated and clamped values into the register map. */
module WritePipelines {
  import opened Numeric
  import opened Codec
  import opened RegisterModel
  import opened RegisterMap
  import opened PipelineModel

  class WritePipeline {
    const registerMap: GatewayRegisterMap
    const rules: map<Name, WriteRule>
    var validators: seq<Validator>

    constructor (registerMap: GatewayRegisterMap, rules: map<Name, WriteRule>)
      ensures this.registerMap == registerMap && this.rules == rules && validators == []
    {
      this.registerMap, this.rules, validators := registerMap, rules, [];
    }

    function ThePolicy(): Policy
      reads this
    {
      Policy(validators, rules)
    }

    method AddValidator(v: Validator)
      modifies this
      ensures validators == old(validators) + [v]
    {
      validators := validators + [v];
    }

    /** Every validator must accept the value. */
    method Accepts(n: Name, v: real) returns (ok: bool)
      ensures ok <==> ThePolicy().Validated(n, v)
    {
      var i := 0;
      while i < |validators|
        invariant i <= |validators| && forall k :: 0 <= k < i ==> validators[k](n, v)
      {
        if !validators[i](n, v) {
          return false;
        }
        i := i + 1;
      }
      return true;
    }

    /** `process_write`: the changes made, or the error that stopped it, with the words written so far. */
    method ProcessWrite(address: nat, values: seq<nat>) returns (r: Result<seq<Change>>)
      requires registerMap.Valid()
      modifies registerMap.hr, registerMap.ir
      ensures registerMap.Valid()
      ensures Placeable(registerMap.config, Affected(registerMap.defs, address, |values|, Holding))
      ensures var out := Process(registerMap.config, ThePolicy(), Write(address, values),
                                 Affected(registerMap.defs, address, |values|, Holding), old(registerMap.View()));
        && registerMap.View() == out.img
        && r == if out.error.None? then Ok(out.changes) else Err(out.error.value)
    {
      var cfg, pol, w := registerMap.config, ThePolicy(), Write(address, values);
      AffectedPlaceable(cfg, registerMap.defs, w);
      var regs := registerMap.FindAffected(address, |values|, Holding);
      hide Process, Step, WellFormed, AllPlaced, Affected, ValidDefs, Placed;
      var changes: seq<Change> := [];
      ghost var start := registerMap.View();
      StartsEmpty(cfg, pol, w, regs, start);
      var i := 0;
      while i < |regs|
        invariant i <= |regs| && registerMap.Valid() && Placeable(cfg, regs[..i])
        invariant Process(cfg, pol, w, regs[..i], start) == Outcome(registerMap.View(), changes, None)
      {
        AffectedMembers(registerMap.defs, address, |values|, Holding, regs[i]);
        ProcessNext(cfg, pol, w, regs, start, i);
        var error: Option<Error>;
        ghost var out;
        changes, error, out := WriteOne(regs[i], w, changes);
        if error.Some? {
          StopsAt(cfg, pol, w, regs, start, i + 1);
          return Err(error.value);
        }
        i := i + 1;
      }
      assert regs[..i] == regs;
      return Ok(changes);
    }

    /** One register of the write. */
    method WriteOne(d: RegisterDef, w: Write, changes: seq<Change>)
        returns (more: seq<Change>, error: Option<Error>, ghost out: Outcome)
      requires registerMap.Valid() && d in registerMap.defs
      modifies registerMap.hr, registerMap.ir
      ensures registerMap.Valid() && Placed(registerMap.config, d, old(registerMap.View()))
      ensures out == Step(registerMap.config, ThePolicy(), w, d, Outcome(old(registerMap.View()), changes, None))
      ensures out == Outcome(registerMap.View(), more, error)
    {
      LookupMember(registerMap.defs, d);
      hide WordsFor, Physical, RawOf, Put, Lookup;
      out := Step(registerMap.config, ThePolicy(), w, d, Outcome(registerMap.View(), changes, None));
      more, error := changes, None;
      var received := w.Received(d);
      if received.None? {
        return;
      }
      var v := Physical(registerMap.config, d, received.value);
      var before := registerMap.GetValue(d.name);
      if !d.writable {
        return;
      }
      var accepted := Accepts(d.name, v);
      if !accepted {
        return;
      }
      if d.name in rules {
        var (ruled, rejected) := rules[d.name].Apply(v);
        if rejected {
          return;
        }
        v := ruled;
      }
      error := registerMap.SetValue(d.name, v);
      if error.None? && before.value != v {
        more := changes + [Change(d.name, before.value, v)];
      }
    }
  }

  lemma LookupMember(defs: seq<RegisterDef>, d: RegisterDef)
    requires d in defs && forall j, k :: 0 <= j < k < |defs| ==> defs[j].name != defs[k].name
    ensures Lookup(defs, d.name).Some? && defs[Lookup(defs, d.name).value] == d
  {
    var i :| 0 <= i < |defs| && defs[i] == d;
    LookupUnique(defs, i);
  }

  lemma StartsEmpty(cfg: Config, pol: Policy, w: Write, regs: seq<RegisterDef>, img: Image)
    requires Placeable(cfg, regs) && img.Fits(cfg)
    ensures Placeable(cfg, regs[..0]) && Process(cfg, pol, w, regs[..0], img) == Outcome(img, [], None)
  {}

  lemma ProcessNext(cfg: Config, pol: Policy, w: Write, regs: seq<RegisterDef>, img: Image, i: nat)
    requires Placeable(cfg, regs) && img.Fits(cfg) && i < |regs| && Placeable(cfg, regs[..i])
    requires Process(cfg, pol, w, regs[..i], img).error.None?
    ensures Placeable(cfg, regs[..i + 1]) && Placed(cfg, regs[i], Process(cfg, pol, w, regs[..i], img).img)
    ensures Process(cfg, pol, w, regs[..i + 1], img) ==
      Step(cfg, pol, w, regs[i], Process(cfg, pol, w, regs[..i], img))
  {
    hide Step, Overlaps;
    PrefixWellFormed(cfg, regs, i + 1);
    assert regs[..i + 1][..i] == regs[..i];
  }

  /** Nothing is handled after an error. */
  lemma {:induction false} StopsAt(cfg: Config, pol: Policy, w: Write, regs: seq<RegisterDef>, img: Image, k: nat)
    requires Placeable(cfg, regs) && img.Fits(cfg) && k <= |regs|
    ensures Placeable(cfg, regs[..k])
    ensures Process(cfg, pol, w, regs[..k], img).error.Some? ==>
      Process(cfg, pol, w, regs, img) == Process(cfg, pol, w, regs[..k], img)
    decreases |regs|
  {
    hide Step, Overlaps;
    PrefixWellFormed(cfg, regs, k);
    if k == |regs| {
      assert regs[..k] == regs;
    } else {
      var n := |regs| - 1;
      PrefixWellFormed(cfg, regs, n);
      StopsAt(cfg, pol, w, regs[..n], img, k);
      assert regs[..n][..k] == regs[..k];
    }
  }
}
