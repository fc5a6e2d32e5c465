/** The step calibration of the feed-forward table, as a function from state to state. */
module CalibrationModel {
  import opened Numeric
  import opened FFTable
  import opened CompensatorModel

  datatype CalConfig = CalConfig(
    stepPct: int, minPct: int, maxPct: int, skipZero: bool,
    threshold: real, steadyCycles: int, settleWait: int)
  {
    predicate Valid() {
      0 < stepPct && minPct <= maxPct && 0 < steadyCycles
    }

    function Settle(): nat {
      if settleWait < 0 then 0 else settleWait
    }
  }

  datatype Phase = Idle | Stepping | Done

  datatype Cal = Cal(
    phase: Phase, bins: seq<int>, index: nat, results: map<int, real>,
    steady: nat, settle: int, sum: real, count: nat)

  /** What a call answers: the last command, a power setpoint, or an index error. */
  datatype Reply = Last | Power(p: real) | Raised

  // ---- The bins to visit ----

  function Up(lo: int, hi: int): seq<int>
    decreases hi - lo + 1
  {
    if hi < lo then [] else Up(lo, hi - 1) + [hi]
  }

  function Down(hi: int, lo: int): seq<int>
    decreases hi - lo + 1
  {
    if hi < lo then [] else Down(hi, lo + 1) + [lo]
  }

  function First(cfg: CalConfig): int {
    if cfg.skipZero then 1 else 0
  }

  function MaxBin(cfg: CalConfig): int
    requires cfg.Valid()
  {
    var n, m := BinCount(cfg.stepPct), cfg.maxPct / cfg.stepPct;
    if m < n then m else n
  }

  function MinBin(cfg: CalConfig): int
    requires cfg.Valid()
  {
    var n, m := BinCount(cfg.stepPct), cfg.minPct / cfg.stepPct;
    if m > -n then m else -n
  }

  /** Discharge bins outward from zero, then charge bins outward from minus one. */
  function BinSequence(cfg: CalConfig): seq<int>
    requires cfg.Valid()
  {
    Up(First(cfg), MaxBin(cfg)) + Down(-1, MinBin(cfg))
  }

  // ---- One call ----

  function Activated(cfg: CalConfig): Cal
    requires cfg.Valid()
  {
    Cal(Stepping, BinSequence(cfg), 0, map[], 0, cfg.settleWait, 0.0, 0)
  }

  function Setpoint(cfg: CalConfig, rated: real, bin: int): real {
    rated * bin as real * cfg.stepPct as real / 100.0
  }

  function RelativeError(setpoint: real, measurement: real): real {
    var error := setpoint - measurement;
    if Abs(setpoint) > 0.000001 then Abs(error / setpoint) else Abs(error)
  }

  predicate IsSteady(cfg: CalConfig, setpoint: real, measurement: real) {
    RelativeError(setpoint, measurement) < cfg.threshold
  }

  function Ratio(setpoint: real, average: real): real {
    if Abs(average) > 0.000001 then setpoint / average else 1.0
  }

  function Recorded(setpoint: real, average: real): real {
    Clamp(Ratio(setpoint, average), 0.8, 1.5)
  }

  function Counted(s: Cal, steady: bool, measurement: real): Cal {
    if steady then s.(steady := s.steady + 1, sum := s.sum + measurement, count := s.count + 1)
    else s.(steady := 0, sum := 0.0, count := 0)
  }

  /** Stores the current bin's ratio and moves to the next bin. */
  function Advanced(cfg: CalConfig, s: Cal, setpoint: real): Cal
    requires s.index < |s.bins| && 0 < s.count
  {
    var results := s.results[s.bins[s.index] := Recorded(setpoint, s.sum / s.count as real)];
    s.(results := results, index := s.index + 1, steady := 0, settle := cfg.settleWait, sum := 0.0, count := 0,
       phase := if s.index + 1 >= |s.bins| then Done else s.phase)
  }

  predicate Consistent(cfg: CalConfig, s: Cal) {
    cfg.Valid() && s.count == s.steady
  }

  predicate Live(s: Cal, rated: real) {
    s.phase == Stepping && s.index < |s.bins| && rated > 0.0
  }

  /** The state after a call with the given measurement, if there is one. */
  function Executed(cfg: CalConfig, s: Cal, rated: real, measurement: Option<real>): (r: Cal)
    requires Consistent(cfg, s)
    ensures Consistent(cfg, r)
  {
    if !Live(s, rated) || measurement.None? then s
    else if s.settle > 0 then s.(settle := s.settle - 1)
    else
      var setpoint := Setpoint(cfg, rated, s.bins[s.index]);
      var t := Counted(s, IsSteady(cfg, setpoint, measurement.value), measurement.value);
      if t.steady >= cfg.steadyCycles then Advanced(cfg, t, setpoint) else t
  }

  function Answer(cfg: CalConfig, s: Cal, rated: real, measurement: Option<real>): Reply
    requires Consistent(cfg, s)
  {
    match s.phase
    case Idle => Last
    case Done => Power(0.0)
    case Stepping =>
      if s.index >= |s.bins| then Raised
      else if rated <= 0.0 then Last
      else if Executed(cfg, s, rated, measurement).phase == Done then Power(0.0)
      else Power(Setpoint(cfg, rated, s.bins[s.index]))
  }

  /** Finishing writes every recorded ratio to the compensator, clamped to its limits. */
  function Written(comp: Config, table: Table, results: map<int, real>): (r: Table)
    ensures r.Keys == table.Keys
  {
    map i | i in table :: if i in results && results[i] >= 0.0 then comp.Bound(results[i]) else table[i]
  }
}
