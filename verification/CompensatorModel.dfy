/** What one call of the power compensator does, as a function from state to state. */
module CompensatorModel {
  import opened Numeric
  import opened FFTable

  datatype Config = Config(
    rated: real, outputMin: real, outputMax: real,
    integralTime: Option<real>, integralMaxRatio: real,
    deadbandRatio: real, deadbandSetpointRatio: real, noise: Option<real>,
    step: int, steadyThreshold: real, steadySeconds: real, holdSeconds: real, changeRatio: real,
    ffMin: real, ffMax: real, emaAlpha: real, rateLimit: Option<real>,
    satMinCycles: int, satAlpha: real, satMaxStep: real)
  {
    /** What keeps the code from raising: it divides by the rated power, the bin width and the
        learned factors, and its constructor rejects a negative change ratio. */
    predicate Valid() {
      rated > 0.0 && 0 < step && 0.0 <= changeRatio && 0.0 < ffMin
    }

    function Ki(): real {
      if integralTime.Some? && integralTime.value > 0.0 then integralMaxRatio / integralTime.value else 0.0
    }

    /** What the integral adds to the output. */
    function Contribution(integral: real): real {
      Ki() * integral
    }

    /** The integral whose contribution is the largest allowed. */
    function IntegralBound(): real
      requires Ki() != 0.0
    {
      integralMaxRatio * rated / Ki()
    }

    function NoiseFloor(): real {
      if noise.Some? && noise.value > 0.0 then 3.0 * noise.value else 0.0
    }

    function Deadband(): real {
      Max(deadbandRatio * rated, NoiseFloor())
    }

    function DeadbandFor(setpoint: real): real {
      if deadbandSetpointRatio <= 0.0 then Deadband()
      else Max(NoiseFloor(), Min(Deadband(), Abs(setpoint) * deadbandSetpointRatio))
    }

    function ChangeThreshold(): real {
      changeRatio * rated
    }

    function Bound(x: real): (r: real)
      ensures r >= ffMin
    {
      Clamp(x, ffMin, ffMax)
    }
  }

  function Cycles(seconds: real, dt: real, floor: nat): nat {
    if dt <= 0.0 then floor
    else
      var n := Round(seconds / dt);
      if n < floor then floor else n
  }

  /** The last error magnitude starts each hold at infinity. */
  datatype Magnitude = Infinite | Finite(value: real)

  datatype State = State(
    integral: real, filteredError: real, lastSetpoint: real, lastOutput: real,
    steadyCount: nat, hold: nat, holdInitial: nat, cyclesInHold: nat,
    lastErrorMagnitude: Magnitude, satCount: nat, ff: Table)

  function Initial(table: Table): State {
    State(0.0, 0.0, 0.0, 0.0, 0, 0, 0, 0, Finite(0.0), 0, table)
  }

  ghost predicate NonZero(t: Table) {
    forall i :: i in t ==> t[i] != 0.0
  }

  // ---- Setpoint change ----

  function Inherited(cfg: Config, ff: Table, oldSetpoint: real, newSetpoint: real): (r: Table)
    requires cfg.Valid()
    ensures NonZero(ff) ==> NonZero(r)
  {
    var oldIdx := BinIndex(cfg.rated, cfg.step, oldSetpoint);
    var newIdx := BinIndex(cfg.rated, cfg.step, newSetpoint);
    if oldIdx == newIdx || oldIdx * newIdx < 0 then ff
    else if Abs(Bin(ff, newIdx) - 1.0) < 0.000001 && Abs(Bin(ff, oldIdx) - 1.0) > 0.000001 then
      ff[newIdx := Bin(ff, oldIdx)]
    else ff
  }

  predicate Changed(cfg: Config, s: State, setpoint: real) {
    Abs(setpoint - s.lastSetpoint) >= cfg.ChangeThreshold()
  }

  function AfterChange(cfg: Config, s: State, setpoint: real, holdCycles: nat): (r: State)
    requires cfg.Valid()
    ensures NonZero(s.ff) ==> NonZero(r.ff)
  {
    if !Changed(cfg, s, setpoint) then s
    else s.(integral := 0.0, steadyCount := 0, hold := holdCycles, holdInitial := holdCycles, cyclesInHold := 0,
            lastErrorMagnitude := Infinite, ff := Inherited(cfg, s.ff, s.lastSetpoint, setpoint))
  }

  // ---- Feed-forward, integral, output ----

  function FeedForward(cfg: Config, ff: Table, setpoint: real): real
    requires cfg.Valid()
  {
    var f := Read(ff, cfg.rated, cfg.step, setpoint);
    if setpoint >= 0.0 then f * setpoint
    else if Abs(f) > 0.000001 then setpoint / f else setpoint
  }

  /** Exponential smoothing, of the error and of a learned factor. */
  function Blend(alpha: real, x: real, previous: real): real {
    alpha * x + (1.0 - alpha) * previous
  }

  function Filtered(cfg: Config, s: State, error: real): State {
    if cfg.emaAlpha > 0.0 then s.(filteredError := Blend(cfg.emaAlpha, error, s.filteredError)) else s
  }

  function ErrorUsed(cfg: Config, s: State, error: real): real {
    if cfg.emaAlpha > 0.0 then s.filteredError else error
  }

  predicate Shrinking(magnitude: real, last: Magnitude, deadband: real) {
    last.Infinite? || magnitude < last.value - deadband
  }

  /** One call inside the hold window. */
  function Held(s: State, error: real, deadband: real): State
    requires s.hold > 0
  {
    var c := s.cyclesInHold + 1;
    s.(cyclesInHold := c,
       hold := if c >= s.holdInitial * 3 then 0
               else if Shrinking(Abs(error), s.lastErrorMagnitude, deadband) then s.hold
               else s.hold - 1,
       lastErrorMagnitude := Finite(Abs(error)))
  }

  function ClampedIntegral(cfg: Config, x: real): real {
    if cfg.Ki() == 0.0 then x
    else
      Clamp(x, -cfg.IntegralBound(), cfg.IntegralBound())
  }

  predicate SatHigh(cfg: Config, ffOutput: real) { ffOutput >= cfg.outputMax }

  predicate SatLow(cfg: Config, ffOutput: real) { ffOutput <= cfg.outputMin }

  predicate Saturated(cfg: Config, ffOutput: real) { SatHigh(cfg, ffOutput) || SatLow(cfg, ffOutput) }

  /** Saturated outputs integrate only when the error pulls away from the limit. */
  predicate MayIntegrate(cfg: Config, ffOutput: real, error: real, deadband: real) {
    || (SatHigh(cfg, ffOutput) && error < -deadband)
    || (SatLow(cfg, ffOutput) && error > deadband)
    || (!Saturated(cfg, ffOutput) && Abs(error) >= deadband)
  }

  function Integrated(cfg: Config, s: State, ffOutput: real, error: real, deadband: real, dt: real): State {
    if s.hold > 0 then Held(s, error, deadband)
    else if MayIntegrate(cfg, ffOutput, error, deadband) then
      s.(integral := ClampedIntegral(cfg, s.integral + error * dt))
    else s
  }

  function CopySign(m: real, sign: real): real {
    if sign < 0.0 then -Abs(m) else Abs(m)
  }

  function Output(cfg: Config, s: State, ffOutput: real, dt: real): real {
    var o := Clamp(ffOutput + cfg.Contribution(s.integral), cfg.outputMin, cfg.outputMax);
    if cfg.rateLimit.Some? && cfg.rateLimit.value > 0.0 && Abs(o - s.lastOutput) > cfg.rateLimit.value * dt then
      s.lastOutput + CopySign(cfg.rateLimit.value * dt, o - s.lastOutput)
    else o
  }

  // ---- Learning ----

  /** The factor that would absorb the integral contribution at this setpoint. */
  function AbsorbingFF(oldFF: real, setpoint: real, iTerm: real): real
    requires setpoint > 0.0 || (setpoint < 0.0 && oldFF != 0.0)
  {
    if setpoint >= 0.0 then (oldFF * setpoint + iTerm) / setpoint
    else
      var denom := setpoint / oldFF + iTerm;
      if Abs(denom) > 0.000001 then setpoint / denom else oldFF
  }

  /** Steady enough to learn from, but for the count. */
  predicate Steady(cfg: Config, setpoint: real, error: real, deadband: real) {
    && Abs(setpoint) >= Max(deadband, 0.000001)
    && Abs(error) < Max(cfg.steadyThreshold * Abs(setpoint), deadband)
  }

  function LearnedSteady(cfg: Config, s: State, setpoint: real, error: real, deadband: real, cycles: nat): (r: State)
    requires cfg.Valid()
    ensures NonZero(s.ff) ==> NonZero(r.ff)
  {
    if !Steady(cfg, setpoint, error, deadband) then s.(steadyCount := 0)
    else if s.steadyCount + 1 < cycles then s.(steadyCount := s.steadyCount + 1)
    else Absorbed(cfg, s.(steadyCount := s.steadyCount + 1), setpoint, deadband)
  }

  /** When charging, the update divides by the bin's factor, and raises if a loaded table put a zero there. */
  predicate AbsorbRaises(cfg: Config, s: State, setpoint: real, deadband: real)
    requires cfg.Valid()
  {
    && setpoint < 0.0 && Abs(cfg.Contribution(s.integral)) >= deadband
    && Bin(s.ff, BinIndex(cfg.rated, cfg.step, setpoint)) == 0.0
  }

  /** The update once the steady count is reached: the integral term moves into the bin. */
  function Absorbed(cfg: Config, s: State, setpoint: real, deadband: real): (r: State)
    requires cfg.Valid() && setpoint != 0.0
    ensures NonZero(s.ff) ==> NonZero(r.ff)
  {
    var iTerm := cfg.Contribution(s.integral);
    if Abs(iTerm) < deadband then s.(steadyCount := 0)
    else if AbsorbRaises(cfg, s, setpoint, deadband) then s
    else
      var idx := BinIndex(cfg.rated, cfg.step, setpoint);
      var newFF := cfg.Bound(AbsorbingFF(Bin(s.ff, idx), setpoint, iTerm));
      if Abs(newFF - Bin(s.ff, idx)) > 0.000001 then
        s.(ff := s.ff[idx := newFF], integral := 0.0, steadyCount := 0)
      else s.(steadyCount := 0)
  }

  /** The readings from which a saturated call may learn. */
  predicate Observable(cfg: Config, s: State, measurement: real, satHigh: bool, output: real) {
    && s.satCount >= cfg.satMinCycles
    && Abs(measurement) >= Max(cfg.Deadband(), 1.0)
    && (if satHigh then measurement > 0.0 else measurement < 0.0)
    && Abs(output) >= Max(cfg.Deadband(), 1.0)
  }

  /** The factor the plant shows: output over reading when discharging, the inverse when charging. */
  function PhysicalFF(measurement: real, satHigh: bool, output: real): real
    requires measurement != 0.0 && output != 0.0
  {
    if satHigh then output / measurement else measurement / output
  }

  function StepToward(cfg: Config, oldFF: real, target: real): real {
    var smooth := Blend(cfg.satAlpha, target, oldFF);
    cfg.Bound(Clamp(smooth, oldFF - cfg.satMaxStep, oldFF + cfg.satMaxStep))
  }

  function LearnedSaturated(cfg: Config, s: State, setpoint: real, measurement: real,
      satHigh: bool, output: real): (r: State)
    requires cfg.Valid()
    ensures NonZero(s.ff) ==> NonZero(r.ff)
  {
    if !Observable(cfg, s, measurement, satHigh, output) then s
    else
      var idx := BinIndex(cfg.rated, cfg.step, setpoint);
      var newFF := StepToward(cfg, Bin(s.ff, idx), PhysicalFF(measurement, satHigh, output));
      if Abs(newFF - Bin(s.ff, idx)) > 0.000001 then s.(ff := s.ff[idx := newFF]) else s
  }

  // ---- One call ----

  function Learned(cfg: Config, s: State, setpoint: real, measurement: real, error: real, ffOutput: real,
                   output: real, deadband: real, steadyCycles: nat): (r: State)
    requires cfg.Valid()
    ensures NonZero(s.ff) ==> NonZero(r.ff)
  {
    if Saturated(cfg, ffOutput) then
      var t := s.(satCount := s.satCount + 1);
      var u := if t.hold == 0 && Abs(setpoint) >= deadband
               then LearnedSaturated(cfg, t, setpoint, measurement, SatHigh(cfg, ffOutput), output) else t;
      u.(steadyCount := 0)
    else LearnedSteady(cfg, s.(satCount := 0), setpoint, error, deadband, steadyCycles)
  }

  /** Whether learning raises. */
  predicate LearningRaises(cfg: Config, s: State, setpoint: real, error: real, ffOutput: real, deadband: real,
                           steadyCycles: nat)
    requires cfg.Valid()
  {
    && !Saturated(cfg, ffOutput) && Steady(cfg, setpoint, error, deadband) && s.steadyCount + 1 >= steadyCycles
    && AbsorbRaises(cfg, s, setpoint, deadband)
  }

  /** The state before integration: setpoint policy, then the error filter. */
  function Prepared(cfg: Config, s: State, setpoint: real, measurement: real, dt: real): (r: State)
    requires cfg.Valid()
    ensures NonZero(s.ff) ==> NonZero(r.ff)
  {
    var changed := AfterChange(cfg, s, setpoint, Cycles(cfg.holdSeconds, dt, 0));
    Filtered(cfg, changed.(lastSetpoint := setpoint), setpoint - measurement)
  }

  /** The state after integration, before the output is stored and anything is learned. */
  function Settled(cfg: Config, s: State, setpoint: real, measurement: real, dt: real): State
    requires cfg.Valid()
  {
    var p := Prepared(cfg, s, setpoint, measurement, dt);
    Integrated(cfg, p, FeedForward(cfg, p.ff, setpoint), ErrorUsed(cfg, p, setpoint - measurement),
               cfg.DeadbandFor(setpoint), dt)
  }

  predicate IsZero(setpoint: real) {
    Abs(setpoint) < 0.000001
  }

  /** Whether a call raises: never, as long as the table holds no zero. */
  predicate Raises(cfg: Config, s: State, setpoint: real, measurement: real, dt: real): (raised: bool)
    requires cfg.Valid()
    ensures NonZero(s.ff) ==> !raised
  {
    var p := Prepared(cfg, s, setpoint, measurement, dt);
    && !IsZero(setpoint)
    && LearningRaises(cfg, Settled(cfg, s, setpoint, measurement, dt), setpoint,
                      ErrorUsed(cfg, p, setpoint - measurement), FeedForward(cfg, p.ff, setpoint),
                      cfg.DeadbandFor(setpoint), Cycles(cfg.steadySeconds, dt, 1))
  }

  /** One call; unless it raises, the value returned to the caller is the new `lastOutput`. */
  function Compensated(cfg: Config, s: State, setpoint: real, measurement: real, dt: real): (r: State)
    requires cfg.Valid()
    ensures NonZero(s.ff) ==> NonZero(r.ff)
  {
    if IsZero(setpoint) then s.(integral := 0.0, lastSetpoint := 0.0, lastOutput := 0.0, steadyCount := 0)
    else
      var p := Prepared(cfg, s, setpoint, measurement, dt);
      var ffOutput := FeedForward(cfg, p.ff, setpoint);
      var error := ErrorUsed(cfg, p, setpoint - measurement);
      var t := Settled(cfg, s, setpoint, measurement, dt);
      var output := Output(cfg, t, ffOutput, dt);
      var u := Learned(cfg, t, setpoint, measurement, error, ffOutput, output, cfg.DeadbandFor(setpoint),
                       Cycles(cfg.steadySeconds, dt, 1));
      if Raises(cfg, s, setpoint, measurement, dt) then u else u.(lastOutput := output)
  }

  // ---- The other public operations ----

  predicate BinAccepted(s: State, idx: int, ratio: real) {
    idx in s.ff && 0.0 <= ratio
  }

  function WithBin(cfg: Config, s: State, idx: int, ratio: real): State {
    if BinAccepted(s, idx, ratio) then s.(ff := s.ff[idx := cfg.Bound(ratio)]) else s
  }

  function WithTable(s: State, table: Table): State {
    s.(ff := Overlaid(s.ff, table))
  }
}
