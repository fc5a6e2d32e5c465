/** How long a setpoint change suspends integration. */
module CompensatorHold {
  import opened Numeric
  import opened FFTable
  import opened CompensatorModel

  datatype Reading = Reading(setpoint: real, measurement: real, dt: real)

  function After(cfg: Config, s: State, rs: seq<Reading>): State
    requires cfg.Valid()
    decreases |rs|
  {
    if rs == [] then s
    else
      var r := rs[|rs| - 1];
      Compensated(cfg, After(cfg, s, rs[..|rs| - 1]), r.setpoint, r.measurement, r.dt)
  }

  /** Whether the call takes the hold branch instead of integrating. */
  predicate TakesHold(cfg: Config, s: State, r: Reading)
    requires cfg.Valid()
  {
    !IsZero(r.setpoint) && Prepared(cfg, s, r.setpoint, r.measurement, r.dt).hold > 0
  }

  /** Whether the error of this call counts as still shrinking. */
  predicate Shrinks(cfg: Config, s: State, r: Reading)
    requires cfg.Valid()
  {
    var p := Prepared(cfg, s, r.setpoint, r.measurement, r.dt);
    Shrinking(Abs(ErrorUsed(cfg, p, r.setpoint - r.measurement)), p.lastErrorMagnitude, cfg.DeadbandFor(r.setpoint))
  }

  /** A run that starts with a setpoint change and then moves less than the threshold per call. */
  predicate Steady(cfg: Config, s: State, rs: seq<Reading>)
    requires cfg.Valid()
  {
    && rs != []
    && Changed(cfg, s, rs[0].setpoint)
    && (forall k :: 0 <= k < |rs| ==> !IsZero(rs[k].setpoint))
    && (forall k :: 1 <= k < |rs| ==> Abs(rs[k].setpoint - rs[k - 1].setpoint) < cfg.ChangeThreshold())
  }

  function HoldOf(cfg: Config, rs: seq<Reading>): nat
    requires rs != []
  {
    Cycles(cfg.holdSeconds, rs[0].dt, 0)
  }

  /** Learning leaves the hold alone. */
  lemma LearnedHold(cfg: Config, s: State, setpoint: real, measurement: real, error: real, ffOutput: real, output: real,
                    deadband: real, cycles: nat)
    requires cfg.Valid()
    ensures var t := Learned(cfg, s, setpoint, measurement, error, ffOutput, output, deadband, cycles);
            && t.hold == s.hold && t.holdInitial == s.holdInitial && t.cyclesInHold == s.cyclesInHold
            && t.lastSetpoint == s.lastSetpoint
  {
    hide BinIndex, AbsorbingFF, StepToward, PhysicalFF, Observable, Config.Contribution;
  }

  /** One call without a change, seen through the hold fields alone. */
  lemma CallHold(cfg: Config, s: State, r: Reading)
    requires cfg.Valid() && !IsZero(r.setpoint)
    ensures var p := Prepared(cfg, s, r.setpoint, r.measurement, r.dt);
            var t := Compensated(cfg, s, r.setpoint, r.measurement, r.dt);
            && t.lastSetpoint == r.setpoint && t.holdInitial == p.holdInitial
            && (p.hold == 0 ==> t.hold == 0)
            && (p.hold > 0 ==>
                  && t.cyclesInHold == p.cyclesInHold + 1
                  && t.hold == (if t.cyclesInHold >= p.holdInitial * 3 then 0
                                else if Shrinks(cfg, s, r) then p.hold else p.hold - 1))
  {
    var p, t := Prepared(cfg, s, r.setpoint, r.measurement, r.dt), Settled(cfg, s, r.setpoint, r.measurement, r.dt);
    assert p.lastSetpoint == r.setpoint by { hide Blend, Inherited, Cycles; }
    hide FeedForward, Output, MayIntegrate, ClampedIntegral, Learned, Raises, Prepared,
      Config.DeadbandFor, ErrorUsed, Cycles;
    var ffOutput := FeedForward(cfg, p.ff, r.setpoint);
    LearnedHold(cfg, t, r.setpoint, r.measurement, ErrorUsed(cfg, p, r.setpoint - r.measurement), ffOutput,
                Output(cfg, t, ffOutput, r.dt), cfg.DeadbandFor(r.setpoint), Cycles(cfg.steadySeconds, r.dt, 1));
  }

  lemma UnchangedPrepared(cfg: Config, s: State, r: Reading)
    requires cfg.Valid() && !Changed(cfg, s, r.setpoint)
    ensures var p := Prepared(cfg, s, r.setpoint, r.measurement, r.dt);
            p.hold == s.hold && p.holdInitial == s.holdInitial && p.cyclesInHold == s.cyclesInHold
  {
    hide Blend;
  }

  lemma ChangedPrepared(cfg: Config, s: State, r: Reading)
    requires cfg.Valid() && Changed(cfg, s, r.setpoint)
    ensures var p := Prepared(cfg, s, r.setpoint, r.measurement, r.dt);
            && p.hold == p.holdInitial == Cycles(cfg.holdSeconds, r.dt, 0)
            && p.cyclesInHold == 0 && Shrinks(cfg, s, r)
  {
    hide Blend, Inherited, Cycles;
  }

  /** The number of calls among the first k, after the first, whose error did not shrink. */
  function Stalls(cfg: Config, s: State, rs: seq<Reading>, k: nat): nat
    requires cfg.Valid() && k <= |rs|
  {
    if k <= 1 then 0
    else Stalls(cfg, s, rs, k - 1) + if Shrinks(cfg, After(cfg, s, rs[..k - 1]), rs[k - 1]) then 0 else 1
  }

  lemma AfterPrefix(cfg: Config, s: State, rs: seq<Reading>, k: nat)
    requires cfg.Valid() && k < |rs|
    ensures After(cfg, s, rs[..k + 1])
         == Compensated(cfg, After(cfg, s, rs[..k]), rs[k].setpoint, rs[k].measurement, rs[k].dt)
  {
    assert rs[..k + 1][..k] == rs[..k];
  }

  /** The hold counter after k calls, exactly: it drops once per call whose error did not shrink and is
      cut off at three times its start. */
  lemma {:induction false} HoldAfter(cfg: Config, s: State, rs: seq<Reading>, k: nat)
    requires cfg.Valid() && Steady(cfg, s, rs) && 1 <= k <= |rs|
    requires HoldOf(cfg, rs) >= 1
    ensures var h, t := HoldOf(cfg, rs), After(cfg, s, rs[..k]);
            && t.lastSetpoint == rs[k - 1].setpoint && t.holdInitial == h
            && t.hold == (if k >= 3 * h || Stalls(cfg, s, rs, k) >= h then 0 else h - Stalls(cfg, s, rs, k))
            && (t.hold > 0 ==> t.cyclesInHold == k)
    decreases k
  {
    hide Prepared, Compensated, Shrinks, After, Cycles;
    var prev, r := After(cfg, s, rs[..k - 1]), rs[k - 1];
    AfterPrefix(cfg, s, rs, k - 1);
    CallHold(cfg, prev, r);
    if k == 1 {
      AfterNone(cfg, s, rs);
      ChangedPrepared(cfg, s, r);
    } else {
      HoldAfter(cfg, s, rs, k - 1);
      UnchangedPrepared(cfg, prev, r);
    }
  }

  lemma AfterNone(cfg: Config, s: State, rs: seq<Reading>)
    requires cfg.Valid()
    ensures After(cfg, s, rs[..0]) == s
  {}

  lemma StallsBounded(cfg: Config, s: State, rs: seq<Reading>, k: nat)
    requires cfg.Valid() && k <= |rs|
    ensures Stalls(cfg, s, rs, k) <= if k <= 1 then 0 else k - 1
  {}

  lemma StallsGrow(cfg: Config, s: State, rs: seq<Reading>, j: nat, k: nat)
    requires cfg.Valid() && j <= k <= |rs|
    ensures Stalls(cfg, s, rs, j) <= Stalls(cfg, s, rs, k)
    decreases k
  {
    if j < k {
      StallsGrow(cfg, s, rs, j, k - 1);
    }
  }

  lemma TakesHoldAt(cfg: Config, s: State, rs: seq<Reading>, k: nat)
    requires cfg.Valid() && Steady(cfg, s, rs) && k < |rs| && HoldOf(cfg, rs) >= 1
    ensures TakesHold(cfg, After(cfg, s, rs[..k]), rs[k])
       <==> InWindow(cfg, s, rs, k)
  {
    hide Prepared, Shrinks, After, Cycles;
    if k == 0 {
      AfterNone(cfg, s, rs);
      ChangedPrepared(cfg, s, rs[0]);
    } else {
      HoldAfter(cfg, s, rs, k);
      UnchangedPrepared(cfg, After(cfg, s, rs[..k]), rs[k]);
    }
  }

  predicate InWindow(cfg: Config, s: State, rs: seq<Reading>, k: nat)
    requires cfg.Valid() && k <= |rs| && rs != []
  {
    k == 0 || (k < 3 * HoldOf(cfg, rs) && Stalls(cfg, s, rs, k) < HoldOf(cfg, rs))
  }

  /** Being in the window is lost at most once, between call h + 1 and call 3h. */
  lemma WindowEdges(cfg: Config, s: State, rs: seq<Reading>, j: nat, k: nat)
    requires cfg.Valid() && j <= k < |rs|
    ensures InWindow(cfg, s, rs, k) ==> InWindow(cfg, s, rs, j)
    ensures k <= HoldOf(cfg, rs) && 1 <= HoldOf(cfg, rs) ==> InWindow(cfg, s, rs, k)
    ensures k >= 3 * HoldOf(cfg, rs) && 1 <= HoldOf(cfg, rs) ==> !InWindow(cfg, s, rs, k)
  {
    hide Shrinks, After, Cycles;
    StallsGrow(cfg, s, rs, j, k);
    StallsBounded(cfg, s, rs, k);
  }

  lemma WindowLength(cfg: Config, s: State, rs: seq<Reading>, h: nat) returns (length: nat)
    requires cfg.Valid() && rs != [] && h == HoldOf(cfg, rs) && h >= 1
    ensures h + 1 <= length <= 3 * h
    ensures forall k: nat :: k < |rs| ==> (InWindow(cfg, s, rs, k) <==> k < length)
  {
    hide InWindow, Shrinks, After, HoldOf;
    length := h + 1;
    while length < 3 * h && length < |rs| && InWindow(cfg, s, rs, length)
      invariant h + 1 <= length <= 3 * h
      invariant length == h + 1 || (length <= |rs| && InWindow(cfg, s, rs, length - 1))
    {
      length := length + 1;
    }
    forall k: nat | k < |rs|
      ensures InWindow(cfg, s, rs, k) <==> k < length
    {
      WindowEdges(cfg, s, rs, k, k);
      if length <= k {
        WindowEdges(cfg, s, rs, length, k);
      } else if h < k {
        WindowEdges(cfg, s, rs, k, length - 1);
      }
    }
  }

  /** After a change with hold h >= 1 the hold branch is taken for exactly the first `length` calls,
      at least h + 1 and at most 3h of them, whatever is measured. */
  lemma {:induction false} HoldWindow(cfg: Config, s: State, rs: seq<Reading>) returns (length: nat)
    requires cfg.Valid() && Steady(cfg, s, rs) && HoldOf(cfg, rs) >= 1
    ensures HoldOf(cfg, rs) + 1 <= length <= 3 * HoldOf(cfg, rs)
    ensures forall k: nat :: k < |rs| ==> (TakesHold(cfg, After(cfg, s, rs[..k]), rs[k]) <==> k < length)
  {
    assert rs != [];
    hide TakesHold, InWindow, Steady, Shrinks, After, HoldOf;
    length := WindowLength(cfg, s, rs, HoldOf(cfg, rs));
    forall k: nat | k < |rs|
      ensures TakesHold(cfg, After(cfg, s, rs[..k]), rs[k]) <==> k < length
    {
      TakesHoldAt(cfg, s, rs, k);
    }
  }
}
