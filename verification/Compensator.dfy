/** The power compensator: its fields are updated in place, call by call. */
module Compensator {
  import opened Collections
  import opened Numeric
  import opened FFTable
  import opened CompensatorModel

  class PowerCompensator {
    const cfg: Config
    var ff: Table
    var integral: real
    var filteredError: real
    var lastSetpoint: real
    var lastOutput: real
    var steadyCount: nat
    var hold: nat
    var holdInitial: nat
    var cyclesInHold: nat
    var lastErrorMagnitude: Magnitude
    var satCount: nat

    ghost function Current(): State
      reads this
    {
      State(integral, filteredError, lastSetpoint, lastOutput, steadyCount, hold, holdInitial, cyclesInHold,
            lastErrorMagnitude, satCount, ff)
    }

    constructor (cfg: Config)
      requires cfg.Valid()
      ensures this.cfg == cfg && Current() == Initial(Fresh(cfg.step))
    {
      this.cfg := cfg;
      ff := Fresh(cfg.step);
      integral, filteredError, lastSetpoint, lastOutput := 0.0, 0.0, 0.0, 0.0;
      steadyCount, hold, holdInitial, cyclesInHold, satCount := 0, 0, 0, 0, 0;
      lastErrorMagnitude := Finite(0.0);
    }

    /** None when the call raises, out of the steady-state learning. */
    method Compensate(setpoint: real, measurement: real, dt: real) returns (output: Option<real>)
      requires cfg.Valid()
      modifies this
      ensures Current() == Compensated(cfg, old(Current()), setpoint, measurement, dt)
      ensures output == if Raises(cfg, old(Current()), setpoint, measurement, dt) then None else Some(lastOutput)
    {
      hide AfterChange, Integrated, FeedForward, Output, LearnedSteady, LearnedSaturated, Cycles, Config.DeadbandFor,
           Blend, Steady, AbsorbRaises, Inherited;
      if Abs(setpoint) < 0.000001 {
        integral, lastSetpoint, lastOutput := 0.0, 0.0, 0.0;
        steadyCount := 0;
        return Some(0.0);
      }
      var deadband := cfg.DeadbandFor(setpoint);
      var holdCycles := Cycles(cfg.holdSeconds, dt, 0);
      var steadyCycles := Cycles(cfg.steadySeconds, dt, 1);
      ApplySetpointChangePolicy(setpoint, holdCycles);
      lastSetpoint := setpoint;
      var error := setpoint - measurement;
      if cfg.emaAlpha > 0.0 {
        filteredError := Blend(cfg.emaAlpha, error, filteredError);
        error := filteredError;
      }
      ghost var prepared := Current();
      assert prepared == Prepared(cfg, old(Current()), setpoint, measurement, dt);
      var ffOutput := FeedForward(cfg, ff, setpoint);
      Integrate(ffOutput, error, deadband, dt);
      ghost var settled := Current();
      assert settled == Settled(cfg, old(Current()), setpoint, measurement, dt);
      var out := Output(cfg, State(integral, filteredError, lastSetpoint, lastOutput, steadyCount, hold, holdInitial,
                                   cyclesInHold, lastErrorMagnitude, satCount, ff), ffOutput, dt);
      var raised := Learn(setpoint, measurement, error, ffOutput, out, deadband, steadyCycles);
      hide Prepared, Settled, Learned, LearningRaises;
      if raised {
        return None;
      }
      lastOutput := out;
      output := Some(out);
    }

    /** The learning branch: saturated and steady-state learning exclude each other. */
    method Learn(setpoint: real, measurement: real, error: real, ffOutput: real, out: real, deadband: real,
                 steadyCycles: nat) returns (raised: bool)
      requires cfg.Valid()
      modifies this`ff, this`integral, this`steadyCount, this`satCount
      ensures Current()
        == Learned(cfg, old(Current()), setpoint, measurement, error, ffOutput, out, deadband, steadyCycles)
      ensures raised == LearningRaises(cfg, old(Current()), setpoint, error, ffOutput, deadband, steadyCycles)
    {
      hide LearnedSteady, LearnedSaturated, Steady;
      raised := false;
      if Saturated(cfg, ffOutput) {
        satCount := satCount + 1;
        if hold == 0 && Abs(setpoint) >= deadband {
          LearnFromSaturation(setpoint, measurement, SatHigh(cfg, ffOutput), out);
        }
        steadyCount := 0;
      } else {
        satCount := 0;
        raised := LearnIfSteady(setpoint, error, deadband, steadyCycles);
      }
    }

    method ApplySetpointChangePolicy(setpoint: real, holdCycles: nat)
      requires cfg.Valid()
      modifies this
      ensures Current() == AfterChange(cfg, old(Current()), setpoint, holdCycles)
    {
      hide Inherited;
      if Abs(setpoint - lastSetpoint) < cfg.changeRatio * cfg.rated {
        return;
      }
      integral, steadyCount := 0.0, 0;
      hold, holdInitial, cyclesInHold := holdCycles, holdCycles, 0;
      lastErrorMagnitude := Infinite;
      InheritFF(lastSetpoint, setpoint);
    }

    method InheritFF(oldSetpoint: real, newSetpoint: real)
      requires cfg.Valid()
      modifies this`ff
      ensures ff == Inherited(cfg, old(ff), oldSetpoint, newSetpoint)
    {
      hide BinIndex;
      var oldIdx := BinIndex(cfg.rated, cfg.step, oldSetpoint);
      var newIdx := BinIndex(cfg.rated, cfg.step, newSetpoint);
      if oldIdx == newIdx || oldIdx * newIdx < 0 {
        return;
      }
      var oldFF, newFF := Bin(ff, oldIdx), Bin(ff, newIdx);
      if Abs(newFF - 1.0) < 0.000001 && Abs(oldFF - 1.0) > 0.000001 {
        ff := ff[newIdx := oldFF];
      }
    }

    method Integrate(ffOutput: real, error: real, deadband: real, dt: real)
      requires cfg.Valid()
      modifies this`integral, this`hold, this`cyclesInHold, this`lastErrorMagnitude
      ensures Current() == Integrated(cfg, old(Current()), ffOutput, error, deadband, dt)
    {
      var satHigh, satLow := ffOutput >= cfg.outputMax, ffOutput <= cfg.outputMin;
      if hold > 0 {
        var magnitude := Abs(error);
        cyclesInHold := cyclesInHold + 1;
        if cyclesInHold >= holdInitial * 3 {
          hold := 0;
        } else if Shrinking(magnitude, lastErrorMagnitude, deadband) {
        } else {
          hold := hold - 1;
        }
        lastErrorMagnitude := Finite(magnitude);
      } else if (satHigh && error < -deadband) || (satLow && error > deadband)
                || (!satHigh && !satLow && Abs(error) >= deadband) {
        integral := integral + error * dt;
        ClampIntegral();
      }
    }

    method ClampIntegral()
      modifies this`integral
      ensures integral == ClampedIntegral(cfg, old(integral))
    {
      if cfg.Ki() == 0.0 {
        return;
      }
      var maxContribution := cfg.integralMaxRatio * cfg.rated;
      var integralMax := maxContribution / cfg.Ki();
      integral := Clamp(integral, -integralMax, integralMax);
    }

    method LearnIfSteady(setpoint: real, error: real, deadband: real, cyclesNeeded: nat) returns (raised: bool)
      requires cfg.Valid()
      modifies this`ff, this`integral, this`steadyCount
      ensures Current() == LearnedSteady(cfg, old(Current()), setpoint, error, deadband, cyclesNeeded)
      ensures raised == (Steady(cfg, setpoint, error, deadband) && old(steadyCount) + 1 >= cyclesNeeded
                         && AbsorbRaises(cfg, old(Current()), setpoint, deadband))
    {
      hide Absorbed;
      if Abs(setpoint) < Max(deadband, 0.000001) {
        steadyCount := 0;
        return false;
      }
      if Abs(error) < Max(cfg.steadyThreshold * Abs(setpoint), deadband) {
        steadyCount := steadyCount + 1;
      } else {
        steadyCount := 0;
        return false;
      }
      if steadyCount < cyclesNeeded {
        return false;
      }
      raised := Absorb(setpoint, deadband);
    }

    /** The update of `LearnIfSteady`, once the steady count is reached. */
    method Absorb(setpoint: real, deadband: real) returns (raised: bool)
      requires cfg.Valid() && setpoint != 0.0
      modifies this`ff, this`integral, this`steadyCount
      ensures Current() == Absorbed(cfg, old(Current()), setpoint, deadband)
      ensures raised == AbsorbRaises(cfg, old(Current()), setpoint, deadband)
    {
      hide BinIndex, AbsorbingFF, Config.Contribution, Config.Bound;
      var iTerm := cfg.Contribution(integral);
      if Abs(iTerm) < deadband {
        steadyCount := 0;
        return false;
      }
      var idx := BinIndex(cfg.rated, cfg.step, setpoint);
      var oldFF := Bin(ff, idx);
      if setpoint < 0.0 && oldFF == 0.0 {
        return true;
      }
      var newFF := cfg.Bound(AbsorbingFF(oldFF, setpoint, iTerm));
      if Abs(newFF - oldFF) > 0.000001 {
        ff := ff[idx := newFF];
        integral := 0.0;
      }
      steadyCount := 0;
      raised := false;
    }

    method LearnFromSaturation(setpoint: real, measurement: real, satHigh: bool, output: real)
      requires cfg.Valid()
      modifies this`ff
      ensures Current() == LearnedSaturated(cfg, old(Current()), setpoint, measurement, satHigh, output)
    {
      hide BinIndex, StepToward, PhysicalFF;
      if satCount < cfg.satMinCycles || Abs(measurement) < Max(cfg.Deadband(), 1.0) {
        return;
      }
      if (satHigh && measurement <= 0.0) || (!satHigh && measurement >= 0.0) {
        return;
      }
      var idx := BinIndex(cfg.rated, cfg.step, setpoint);
      var oldFF := Bin(ff, idx);
      if Abs(output) < Max(cfg.Deadband(), 1.0) {
        return;
      }
      var newFF := StepToward(cfg, oldFF, PhysicalFF(measurement, satHigh, output));
      if Abs(newFF - oldFF) > 0.000001 {
        ff := ff[idx := newFF];
      }
    }

    method UpdateFFBin(idx: int, ratio: real) returns (accepted: bool)
      modifies this`ff
      ensures accepted == (idx in old(ff) && 0.0 <= ratio)
      ensures Current() == WithBin(cfg, old(Current()), idx, ratio)
    {
      accepted := idx in ff && 0.0 <= ratio;
      if accepted {
        ff := ff[idx := Clamp(ratio, cfg.ffMin, cfg.ffMax)];
      }
    }

    method Reset()
      modifies this
      ensures Current() == Initial(old(ff))
    {
      integral, filteredError, lastSetpoint, lastOutput := 0.0, 0.0, 0.0, 0.0;
      steadyCount, hold, holdInitial, cyclesInHold, satCount := 0, 0, 0, 0, 0;
      lastErrorMagnitude := Finite(0.0);
    }

    method ResetFFTable()
      requires cfg.Valid()
      modifies this`ff
      ensures Current() == old(Current()).(ff := Fresh(cfg.step))
    {
      ff := Fresh(cfg.step);
    }

    method LoadFFTable(table: Table)
      modifies this`ff
      ensures Current() == WithTable(old(Current()), table)
    {
      var todo := ff.Keys;
      while todo != {}
        invariant todo <= ff.Keys == old(ff).Keys
        invariant forall i :: i in ff ==> ff[i] == if i in table && i !in todo then table[i] else old(ff)[i]
        decreases |todo|
      {
        var i := Pick(todo);
        todo := todo - {i};
        if i in table {
          ff := ff[i := table[i]];
        }
      }
      forall i | i in ff
        ensures ff[i] == Overlaid(old(ff), table)[i]
      {
        assert i !in todo;
      }
      SameMap(ff, Overlaid(old(ff), table));
    }

    /** Loading a stored table at construction. `ok` is false where the code raises: a file index
        above 100 makes the recovered width zero. */
    method LoadStored(data: Table) returns (ok: bool)
      requires cfg.Valid()
      modifies this`ff
      ensures data.Keys == {} ==> ok && ff == old(ff)
      ensures forall m: nat :: IsMaxIndex(data, m) ==>
        && ok == (m <= 100 || old(ff).Keys == {})
        && Current() == old(Current()).(ff := if m <= 100 then Loaded(cfg.step, old(ff), data, m) else old(ff))
    {
      hide MigratedBin, Loaded;
      if data.Keys == {} {
        assert forall m: nat :: IsMaxIndex(data, m) ==> exists i :: i in data.Keys;
        return true;
      }
      var fileMax := MaxIndex(data);
      var n := BinCount(cfg.step);
      if fileMax != n && fileMax > 0 {
        if fileMax > 100 {
          return ff.Keys == {};
        }
        Migrate(data, fileMax);
      } else {
        LoadFFTable(data);
        OverlaidLoaded(cfg.step, old(ff), data, fileMax);
      }
      ok := true;
    }

    /** Every bin is read off the stored table at its own percentage. */
    method Migrate(data: Table, fileMax: nat)
      requires cfg.Valid() && fileMax <= 100 && fileMax != BinCount(cfg.step) && fileMax > 0
      modifies this`ff
      ensures Current() == old(Current()).(ff := Loaded(cfg.step, old(ff), data, fileMax))
    {
      hide MigratedBin, Loaded;
      var ratio := (100 / fileMax) as real / cfg.step as real;
      var todo := ff.Keys;
      while todo != {}
        invariant todo <= ff.Keys == old(ff).Keys
        invariant forall i :: i in ff ==>
          ff[i] == if i in todo then old(ff)[i] else MigratedBin(data, ratio, i, old(ff)[i])
        decreases |todo|
      {
        var i := Pick(todo);
        todo := todo - {i};
        ff := ff[i := MigratedBin(data, ratio, i, ff[i])];
      }
      MigratedLoaded(cfg.step, old(ff), data, fileMax, ratio, ff);
    }

    static method MaxIndex(data: Table) returns (m: nat)
      requires data.Keys != {}
      ensures IsMaxIndex(data, m)
      ensures forall k: nat :: IsMaxIndex(data, k) ==> k == m
    {
      var todo := data.Keys;
      var best := Pick(todo);
      todo := todo - {best};
      while todo != {}
        invariant todo <= data.Keys && best in data
        invariant forall i :: i in data && i !in todo ==> AbsIndex(i) <= AbsIndex(best)
        decreases |todo|
      {
        var i := Pick(todo);
        todo := todo - {i};
        if AbsIndex(best) < AbsIndex(i) {
          best := i;
        }
      }
      m := AbsIndex(best);
    }
  }

  lemma OverlaidLoaded(step: int, before: Table, data: Table, fileMax: nat)
    requires 0 < step && fileMax <= 100 && (fileMax == BinCount(step) || fileMax == 0)
    ensures Loaded(step, before, data, fileMax) == Overlaid(before, data)
  {}

  lemma MigratedLoaded(step: int, before: Table, data: Table, fileMax: nat, ratio: real, after: Table)
    requires 0 < step && fileMax <= 100 && fileMax != BinCount(step) && fileMax > 0
    requires ratio == (100 / fileMax) as real / step as real && ratio > 0.0 && after.Keys == before.Keys
    requires forall i :: i in after ==> after[i] == MigratedBin(data, ratio, i, before[i])
    ensures after == Loaded(step, before, data, fileMax)
  {
    hide MigratedBin;
    SameMap(after, Loaded(step, before, data, fileMax));
  }
}
