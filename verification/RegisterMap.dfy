/** The gateway's register map: two word arrays in place, and the definitions that name their parts. */
module RegisterMap {
  import opened Numeric
  import opened Codec
  import opened RegisterModel

  /** The definition a name maps to. */
  function Lookup(defs: seq<RegisterDef>, n: Name): (r: Option<nat>)
    ensures r.Some? ==> r.value < |defs| && defs[r.value].name == n
    ensures r.None? ==> forall i :: 0 <= i < |defs| ==> defs[i].name != n
  {
    if defs == [] then None
    else if defs[|defs| - 1].name == n then Some(|defs| - 1)
    else Lookup(defs[..|defs| - 1], n)
  }

  function Zeros(cfg: Config): (r: Image)
    ensures r.Fits(cfg)
  {
    Image(seq(cfg.size, i => 0), seq(cfg.size, i => 0))
  }

  /** The image after the initial values of the first k definitions; the first that cannot be encoded raises. */
  function Initialised(cfg: Config, defs: seq<RegisterDef>, k: nat): (r: Result<Image>)
    requires WellFormed(cfg, defs) && ValidDefs(defs) && k <= |defs|
    ensures r.Ok? ==> r.value.Fits(cfg)
  {
    if k == 0 then Ok(Zeros(cfg))
    else
      var before, d := Initialised(cfg, defs, k - 1), defs[k - 1];
      if before.Err? || d.initial.None? then before
      else
        var words := WordsFor(cfg, d, d.initial.value);
        if words.Err? then Err(words.error) else Ok(Put(d, words.value, before.value))
  }

  class GatewayRegisterMap {
    const config: Config
    const hr: array<nat>
    const ir: array<nat>
    var defs: seq<RegisterDef>

    function View(): Image
      reads hr, ir
    {
      Image(hr[..], ir[..])
    }

    ghost predicate Valid()
      reads this, hr, ir
    {
      hr != ir && AllPlaced(config, defs, View())
    }

    constructor Empty(config: Config)
      ensures this.config == config && defs == [] && fresh(hr) && fresh(ir)
      ensures Valid() && View() == Zeros(config)
    {
      this.config, defs := config, [];
      hr := new nat[config.size](i => 0);
      ir := new nat[config.size](i => 0);
    }

    /** The constructor of the source: every definition registered, then every initial value set. */
    static method Create(config: Config, defs: seq<RegisterDef>) returns (r: Result<GatewayRegisterMap>)
      requires ValidDefs(defs)
      ensures !WellFormed(config, defs) ==> r.Err?
      ensures WellFormed(config, defs) ==>
        var start := Initialised(config, defs, |defs|);
        && (r.Ok? <==> start.Ok?)
        && (r.Ok? ==>
            && fresh(r.value) && fresh(r.value.hr) && fresh(r.value.ir) && r.value.Valid()
            && r.value.config == config && r.value.defs == defs && r.value.View() == start.value)
    {
      hide WellFormed, Initialised, AllPlaced;
      var m := new GatewayRegisterMap.Empty(config);
      var failed := m.RegisterAll(defs);
      if failed.None? {
        failed := m.InitialiseAll();
      }
      if failed.Some? {
        return Err(failed.value);
      }
      return Ok(m);
    }

    method RegisterAll(all: seq<RegisterDef>) returns (failed: Option<Error>)
      requires Valid() && defs == [] && ValidDefs(all)
      modifies this`defs
      ensures Valid() && (failed.None? <==> WellFormed(config, all))
      ensures failed.None? ==> defs == all
    {
      hide Refusal;
      var i := 0;
      while i < |all|
        invariant i <= |all| && defs == all[..i] && Valid()
      {
        assert all[..i] + [all[i]] == all[..i + 1];
        AcceptedIff(config, defs, all[i]);
        failed := Register(all[i]);
        if failed.Some? {
          Refused(config, all, i);
          return;
        }
        i := i + 1;
      }
      assert all[..i] == all;
      return None;
    }

    method InitialiseAll() returns (failed: Option<Error>)
      requires Valid() && View() == Zeros(config)
      modifies hr, ir
      ensures Valid() && (failed.None? <==> Initialised(config, defs, |defs|).Ok?)
      ensures failed.None? ==> View() == Initialised(config, defs, |defs|).value
    {
      hide WordsFor, Put;
      var i := 0;
      while i < |defs|
        invariant i <= |defs| && Valid() && Initialised(config, defs, i) == Ok(View())
      {
        if defs[i].initial.Some? {
          failed := SetValueUnlocked(i, defs[i].initial.value);
          if failed.Some? {
            StaysFailed(config, defs, i + 1, |defs|);
            return;
          }
        }
        i := i + 1;
      }
      return None;
    }

    method Register(d: RegisterDef) returns (e: Option<Error>)
      requires Valid() && d.Valid()
      modifies this`defs
      ensures Valid() && e == Refusal(config, old(defs), d)
      ensures defs == if e.None? then old(defs) + [d] else old(defs)
    {
      hide WellFormed, Overlaps;
      AcceptedIff(config, defs, d);
      var known := HasName(d.name);
      if known {
        return Some(DuplicateName(d.name));
      }
      var end := d.address + d.dataType.words - 1;
      if end >= config.size {
        return Some(OutOfSpace(d.name));
      }
      var x := FindOverlap(d);
      if x.Some? {
        var xEnd := x.value.address + x.value.dataType.words - 1;
        return Some(Overlap(x.value.name, d.name,
                            if d.address < x.value.address then x.value.address else d.address,
                            if end < xEnd then end else xEnd));
      }
      defs := defs + [d];
      e := None;
    }

    method HasName(n: Name) returns (known: bool)
      ensures known <==> exists e :: e in defs && e.name == n
    {
      var i := 0;
      while i < |defs|
        invariant i <= |defs| && forall k :: 0 <= k < i ==> defs[k].name != n
      {
        if defs[i].name == n {
          return true;
        }
        i := i + 1;
      }
      return false;
    }

    method FindOverlap(d: RegisterDef) returns (x: Option<RegisterDef>)
      requires d.Valid()
      ensures x == FirstOverlap(defs, d)
    {
      var i := 0;
      while i < |defs|
        invariant i <= |defs| && FirstOverlap(defs, d) == FirstOverlap(defs[i..], d)
      {
        var e := defs[i];
        if e.registerType == d.registerType {
          if d.address <= e.End() - 1 && e.address <= d.End() - 1 {
            return Some(e);
          }
        }
        assert defs[i..][1..] == defs[i + 1..];
        i := i + 1;
      }
      return None;
    }

    method SetValue(name: Name, v: real) returns (e: Option<Error>)
      requires Valid()
      modifies hr, ir
      ensures Valid()
      ensures Lookup(defs, name).None? ==> e == Some(UnknownName(name)) && View() == old(View())
      ensures Lookup(defs, name).Some? ==>
        var d := defs[Lookup(defs, name).value];
        match WordsFor(config, d, v)
        case Err(error) => e == Some(error) && View() == old(View())
        case Ok(words) => e.None? && View() == Put(d, words, old(View()))
    {
      var i := Lookup(defs, name);
      if i.None? {
        return Some(UnknownName(name));
      }
      e := SetValueUnlocked(i.value, v);
    }

    method SetValueUnlocked(i: nat, v: real) returns (e: Option<Error>)
      requires Valid() && i < |defs|
      modifies hr, ir
      ensures Valid()
      ensures match WordsFor(config, defs[i], v)
        case Err(error) => e == Some(error) && View() == old(View())
        case Ok(words) => e.None? && View() == Put(defs[i], words, old(View()))
    {
      hide WellFormed, Encode, Put, Round, Scaled;
      var d := defs[i];
      assert d.Valid();
      var scaled := Scaled(d, v);
      var rounded := Round(scaled);
      if Abs(scaled - rounded as real) >= 0.000000001 {
        return Some(NotInteger(scaled));
      }
      if !d.dataType.InRange(rounded) {
        return Some(OutOfRange(rounded));
      }
      EncodedAreWords(d.dataType, rounded, config.ByteOrderOf(d), config.RegisterOrderOf(d));
      Store(i, Encode(d.dataType, rounded, config.ByteOrderOf(d), config.RegisterOrderOf(d)));
      return None;
    }

    /** The slice assignment into the array of the register's type. */
    method Store(i: nat, words: seq<nat>)
      requires Valid() && i < |defs| && |words| == defs[i].dataType.words && Below(65536, words)
      modifies hr, ir
      ensures Valid() && View() == Put(defs[i], words, old(View()))
    {
      var d := defs[i];
      assert d.End() <= config.size;
      PutFits(config, d, words, View());
      hide WellFormed;
      var regs := if d.registerType.Holding? then hr else ir;
      forall k | 0 <= k < |words| {
        regs[d.address + k] := words[k];
      }
      assert regs[..] == Splice(old(regs[..]), d.address, words);
    }

    method GetValue(name: Name) returns (r: Result<real>)
      requires Valid()
      ensures Lookup(defs, name).None? ==> r == Err(UnknownName(name))
      ensures Lookup(defs, name).Some? ==> r == Ok(ValueOf(config, defs[Lookup(defs, name).value], View()))
    {
      var i := Lookup(defs, name);
      if i.None? {
        return Err(UnknownName(name));
      }
      r := Ok(ValueOf(config, defs[i.value], View()));
    }

    method GetAllValues() returns (m: map<Name, real>)
      requires Valid()
      ensures m == AllValues(config, defs, View())
    {
      m := map[];
      var i := 0;
      while i < |defs|
        invariant i <= |defs| && AllPlaced(config, defs[..i], View())
        invariant m == AllValues(config, defs[..i], View())
      {
        PrefixWellFormed(config, defs, i + 1);
        assert defs[..i + 1][..i] == defs[..i];
        m := m[defs[i].name := ValueOf(config, defs[i], View())];
        i := i + 1;
      }
      assert defs[..i] == defs;
    }

    method FindAffected(address: nat, count: nat, t: RegisterType) returns (affected: seq<RegisterDef>)
      requires Valid()
      ensures affected == Affected(defs, address, count, t)
    {
      affected := [];
      var writeEnd := address + count - 1;
      var i := 0;
      while i < |defs|
        invariant i <= |defs| && affected == Affected(defs[..i], address, count, t)
      {
        var d := defs[i];
        assert defs[..i + 1][..i] == defs[..i];
        if d.registerType == t {
          if d.address <= writeEnd && address <= d.address + d.dataType.words - 1 {
            affected := affected + [d];
          }
        }
        i := i + 1;
      }
      assert defs[..i] == defs;
    }
  }

  lemma Refused(cfg: Config, defs: seq<RegisterDef>, i: nat)
    requires i < |defs| && !WellFormed(cfg, defs[..i] + [defs[i]])
    ensures !WellFormed(cfg, defs)
  {
    assert defs[..i] + [defs[i]] == defs[..i + 1];
    if WellFormed(cfg, defs) {
      PrefixWellFormed(cfg, defs, i + 1);
    }
  }

  lemma {:induction false} StaysFailed(cfg: Config, defs: seq<RegisterDef>, k: nat, n: nat)
    requires WellFormed(cfg, defs) && ValidDefs(defs) && k <= n <= |defs|
    requires Initialised(cfg, defs, k).Err?
    ensures Initialised(cfg, defs, n).Err?
    decreases n
  {
    hide WellFormed, ValidDefs, WordsFor, Put, Zeros;
    if k < n {
      StaysFailed(cfg, defs, k, n - 1);
    }
  }

  lemma LookupUnique(defs: seq<RegisterDef>, i: nat)
    requires i < |defs| && forall j, k :: 0 <= j < k < |defs| ==> defs[j].name != defs[k].name
    ensures Lookup(defs, defs[i].name) == Some(i)
  {}

  /** The value a freshly created map holds under a name. */
  function Start(d: RegisterDef): real
    requires d.Valid()
  {
    if d.initial.None? then 0.0 else FromInt(d, Round(Scaled(d, d.initial.value)))
  }

  lemma ZeroDecoded(t: IntType, bo: ByteOrder, ro: RegisterOrder)
    requires t.Valid()
    ensures Decode(t, seq(t.words, i => 0), bo, ro) == 0
  {
    hide Decode, FromDigits;
    var zeros := seq(t.words, i => 0);
    DecodeWords(t, zeros, bo, ro);
    assert Arranged(zeros, bo, ro) == zeros;
    ZeroDigits(t.words);
    MaxPositive(t);
  }

  lemma ZeroWords(cfg: Config, d: RegisterDef)
    requires d.Valid() && d.End() <= cfg.size
    ensures ValueOf(cfg, d, Zeros(cfg)) == 0.0
  {
    hide Decode;
    ZeroDecoded(d.dataType, cfg.ByteOrderOf(d), cfg.RegisterOrderOf(d));
    assert RawOf(d, Zeros(cfg)) == seq(d.dataType.words, i => 0);
  }

  lemma MaxPositive(t: IntType)
    requires t.Valid()
    ensures t.Max() >= 0
  {
    EvenPow(t.words);
  }

  lemma {:induction false} ZeroDigits(n: nat)
    ensures FromDigits(65536, seq(n, i => 0)) == 0
  {
    if n > 0 {
      ZeroDigits(n - 1);
      assert seq(n, i => 0)[1..] == seq(n - 1, i => 0);
    }
  }

  /** After creation every register reads its initial value, as far as its scale can hold it; else zero. */
  lemma {:induction false} StartValues(cfg: Config, defs: seq<RegisterDef>, k: nat, j: nat)
    requires WellFormed(cfg, defs) && ValidDefs(defs) && k <= |defs| && j < |defs|
    requires Initialised(cfg, defs, k).Ok?
    ensures ValueOf(cfg, defs[j], Initialised(cfg, defs, k).value) == if j < k then Start(defs[j]) else 0.0
  {
    hide ValueOf, FromInt, Round, Scaled, WordsFor, Physical;
    if k == 0 {
      ZeroWords(cfg, defs[j]);
    } else {
      StartValues(cfg, defs, k - 1, j);
      InitialStep(cfg, defs, k, j);
    }
  }

  lemma InitialStep(cfg: Config, defs: seq<RegisterDef>, k: nat, j: nat)
    requires WellFormed(cfg, defs) && ValidDefs(defs) && 0 < k <= |defs| && j < |defs|
    requires Initialised(cfg, defs, k).Ok?
    ensures Initialised(cfg, defs, k - 1).Ok?
    ensures j != k - 1 ==>
      ValueOf(cfg, defs[j], Initialised(cfg, defs, k).value)
        == ValueOf(cfg, defs[j], Initialised(cfg, defs, k - 1).value)
    ensures j == k - 1 && defs[j].initial.Some? ==>
      ValueOf(cfg, defs[j], Initialised(cfg, defs, k).value) == Start(defs[j])
    ensures defs[k - 1].initial.None? ==> Initialised(cfg, defs, k) == Initialised(cfg, defs, k - 1)
  {
    hide FromInt, Round, Scaled, WordsFor, Physical;
    var before, d := Initialised(cfg, defs, k - 1), defs[k - 1];
    if before.Ok? && d.initial.Some? && WordsFor(cfg, d, d.initial.value).Ok? {
      var words := WordsFor(cfg, d, d.initial.value).value;
      if j != k - 1 {
        assert !Overlaps(d, defs[j]);
        PutElsewhere(d, words, defs[j], before.value);
      } else {
        PutGet(d, words, before.value);
        ReadBack(cfg, d, d.initial.value);
      }
    }
  }
}
