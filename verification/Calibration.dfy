/** The calibration strategy: stepped in place, writing the compensator's table when it finishes. */
module Calibration {
  import opened Collections
  import opened Numeric
  import opened FFTable
  import opened CompensatorModel
  import opened Compensator
  import opened CalibrationModel
  import CalibrationLaws

  class FFCalibrationStrategy {
    const cfg: CalConfig
    const compensator: PowerCompensator?
    const rated: real
    var phase: Phase
    var bins: seq<int>
    var index: nat
    var results: map<int, real>
    var steady: nat
    var settle: int
    var sum: real
    var count: nat

    ghost function Current(): Cal
      reads this
    {
      Cal(phase, bins, index, results, steady, settle, sum, count)
    }

    constructor (cfg: CalConfig, compensator: PowerCompensator?, rated: real)
      ensures this.cfg == cfg && this.compensator == compensator && this.rated == rated
      ensures Current() == Cal(Idle, [], 0, map[], 0, 0, 0.0, 0)
    {
      this.cfg, this.compensator, this.rated := cfg, compensator, rated;
      phase, bins, index, results, steady, settle, sum, count := Idle, [], 0, map[], 0, 0, 0.0, 0;
    }

    method OnActivate()
      requires cfg.Valid()
      modifies this
      ensures Current() == Activated(cfg)
    {
      BuildBinSequence();
      index, results, steady := 0, map[], 0;
      settle, sum, count := cfg.settleWait, 0.0, 0;
      phase := Stepping;
    }

    method OnDeactivate()
      modifies this`phase
      ensures phase == Idle
    {
      phase := Idle;
    }

    method BuildBinSequence()
      requires cfg.Valid()
      modifies this`bins
      ensures bins == BinSequence(cfg)
    {
      var n := BinCount(cfg.stepPct);
      var maxBin := if cfg.maxPct / cfg.stepPct < n then cfg.maxPct / cfg.stepPct else n;
      var minBin := if cfg.minPct / cfg.stepPct > -n then cfg.minPct / cfg.stepPct else -n;
      var out: seq<int> := [];
      var i := if cfg.skipZero then 1 else 0;
      while i < maxBin + 1
        invariant i <= maxBin + 1 || (out == [] && i == First(cfg))
        invariant First(cfg) <= i && out == Up(First(cfg), i - 1)
      {
        out := out + [i];
        i := i + 1;
      }
      assert out == Up(First(cfg), MaxBin(cfg));
      ghost var ups := out;
      i := -1;
      while i > minBin - 1
        invariant i >= minBin - 1 || (out == ups && i == -1)
        invariant i <= -1 && out == ups + Down(-1, i + 1)
      {
        assert Down(-1, i) == Down(-1, i + 1) + [i];
        out := out + [i];
        i := i - 1;
      }
      bins := out;
    }

    method Execute(measurement: Option<real>) returns (reply: Reply)
      requires Consistent(cfg, Current())
      requires compensator != null ==> compensator.cfg.Valid() && compensator as object != this
      modifies this, compensator
      ensures Current() == Executed(cfg, old(Current()), rated, measurement)
      ensures reply == Answer(cfg, old(Current()), rated, measurement)
      ensures compensator != null ==>
        compensator.Current() == old(compensator.Current()).(ff :=
          if phase == Done && old(phase) != Done then Written(compensator.cfg, old(compensator.ff), results)
          else old(compensator.ff))
    {
      hide Setpoint, IsSteady, Advanced, Written;
      if phase == Idle { return Last; }
      if phase == Done { return Power(0.0); }
      if index >= |bins| { return Raised; }
      var bin := bins[index];
      if rated <= 0.0 { return Last; }
      var setpoint := Setpoint(cfg, rated, bin);
      if measurement.None? { return Power(setpoint); }
      if settle > 0 {
        settle := settle - 1;
        return Power(setpoint);
      }
      var m := measurement.value;
      if IsSteady(cfg, setpoint, m) {
        steady, sum, count := steady + 1, sum + m, count + 1;
      } else {
        steady, sum, count := 0, 0.0, 0;
      }
      if steady >= cfg.steadyCycles {
        var finished := Advance(setpoint);
        if finished {
          return Power(0.0);
        }
      }
      return Power(setpoint);
    }

    /** The bin is recorded, and the next one begun, if there is one. */
    method Advance(setpoint: real) returns (finished: bool)
      requires phase == Stepping && index < |bins| && 0 < count
      requires compensator != null ==> compensator.cfg.Valid() && compensator as object != this
      modifies this, compensator
      ensures Current() == Advanced(cfg, old(Current()), setpoint) && finished == (phase == Done)
      ensures compensator != null ==>
        compensator.Current() == old(compensator.Current()).(ff :=
          if finished then Written(compensator.cfg, old(compensator.ff), results) else old(compensator.ff))
    {
      hide Recorded, Written;
      results := results[bins[index] := Recorded(setpoint, sum / count as real)];
      index := index + 1;
      steady, settle, sum, count := 0, cfg.settleWait, 0.0, 0;
      finished := index >= |bins|;
      if finished {
        Finish();
      }
    }

    method Finish()
      requires compensator != null ==> compensator.cfg.Valid() && compensator as object != this
      modifies this`phase, compensator
      ensures phase == Done
      ensures compensator != null ==>
        compensator.Current()
        == old(compensator.Current()).(ff := Written(compensator.cfg, old(compensator.ff), results))
    {
      phase := Done;
      if compensator != null {
        var todo := results.Keys;
        while todo != {}
          invariant todo <= results.Keys && results == old(results) && phase == Done
          invariant compensator.Current() == old(compensator.Current()).(ff := compensator.ff)
          invariant compensator.ff.Keys == old(compensator.ff).Keys
          invariant forall i :: i in compensator.ff ==>
            compensator.ff[i] == if i in results && i !in todo && results[i] >= 0.0
                                 then compensator.cfg.Bound(results[i]) else old(compensator.ff)[i]
          decreases |todo|
        {
          var i := Pick(todo);
          todo := todo - {i};
          var accepted := compensator.UpdateFFBin(i, results[i]);
        }
        forall i | i in compensator.ff
          ensures compensator.ff[i] == Written(compensator.cfg, old(compensator.ff), results)[i]
        {
          assert i !in todo;
        }
        SameMap(compensator.ff, Written(compensator.cfg, old(compensator.ff), results));
      }
    }

    /** A whole run on the object, from activation on, whatever is measured: it ends where the model's run does, every
        call replies what the model answers, and the compensator's table changes only if the run finishes, by what it
        recorded. */
    method Live(ms: seq<Option<real>>) returns (replies: seq<Reply>)
      requires cfg.Valid()
      requires compensator != null ==> compensator.cfg.Valid() && compensator as object != this
      modifies this, compensator
      ensures Current() == CalibrationLaws.Run(cfg, rated, ms)
      ensures |replies| == |ms| && Answered(cfg, rated, ms, replies)
      ensures compensator != null ==>
        compensator.Current() == old(compensator.Current()).(ff :=
          if phase == Done then Written(compensator.cfg, old(compensator.ff), results) else old(compensator.ff))
    {
      OnActivate();
      replies := [];
      var i := 0;
      RunStarts(cfg, rated);
      assert ms[..0] == [] && Answered(cfg, rated, ms, []);
      hide *;
      while i < |ms|
        invariant i <= |ms| && Current() == CalibrationLaws.Run(cfg, rated, ms[..i])
        invariant |replies| == i && Answered(cfg, rated, ms, replies)
        invariant compensator != null ==>
          compensator.Current() == old(compensator.Current()).(ff :=
            if phase == Done then Written(compensator.cfg, old(compensator.ff), results) else old(compensator.ff))
      {
        RunNext(cfg, rated, ms, i);
        DoneStays(cfg, Current(), rated, ms[i]);
        var reply := Execute(ms[i]);
        AnsweredNext(cfg, rated, ms, replies, reply);
        replies := replies + [reply];
        i := i + 1;
      }
      assert ms[..i] == ms;
    }
  }

  /** Each call replied what the model answers in the state of the run so far. */
  ghost predicate Answered(cfg: CalConfig, rated: real, ms: seq<Option<real>>, replies: seq<Reply>)
    requires cfg.Valid()
  {
    |replies| <= |ms| && forall k :: 0 <= k < |replies| ==>
      replies[k] == Answer(cfg, CalibrationLaws.Run(cfg, rated, ms[..k]), rated, ms[k])
  }

  lemma AnsweredNext(cfg: CalConfig, rated: real, ms: seq<Option<real>>, replies: seq<Reply>, reply: Reply)
    requires cfg.Valid() && Answered(cfg, rated, ms, replies) && |replies| < |ms|
    requires reply == Answer(cfg, CalibrationLaws.Run(cfg, rated, ms[..|replies|]), rated, ms[|replies|])
    ensures Answered(cfg, rated, ms, replies + [reply])
  {
    hide Answer, CalibrationLaws.Run;
  }

  lemma RunStarts(cfg: CalConfig, rated: real)
    requires cfg.Valid()
    ensures CalibrationLaws.Run(cfg, rated, []) == Activated(cfg) && Activated(cfg).phase != Done
  {}

  lemma RunNext(cfg: CalConfig, rated: real, ms: seq<Option<real>>, i: nat)
    requires cfg.Valid() && i < |ms|
    ensures CalibrationLaws.Run(cfg, rated, ms[..i + 1])
         == Executed(cfg, CalibrationLaws.Run(cfg, rated, ms[..i]), rated, ms[i])
  {
    assert ms[..i + 1][..i] == ms[..i];
    hide Executed;
  }

  lemma DoneStays(cfg: CalConfig, s: Cal, rated: real, m: Option<real>)
    requires Consistent(cfg, s)
    ensures s.phase == Done ==> Executed(cfg, s, rated, m) == s
  {}
}
