# Verified model of the csp_lib control core

The project models six parts of csp_lib, a library for battery and microgrid control, and proves what their code
guarantees. Objects that the library updates in place are classes here; each of their methods is proved equal to
a function of the old state, and the theorems are about those functions and about whole runs of them.
`dafny verify dfyconfig.toml` checks everything.

* **Power compensator and calibration** (`FFTable`, `CompensatorModel`, `Compensator`, `CompensatorRuns`,
  `CompensatorResponse`, `CompensatorEscape`, `CompensatorHold`, `CompensatorSteady`, `CompensatorLearning`,
  `CompensatorBumpless`, `CompensatorSaturation`, `CalibrationModel`, `Calibration`, `CalibrationLaws`,
  `CalibrationEffect`, `CalibrationLoop`): a feed-forward table with interpolated reads, an integrator with a hold
  window, two learning laws, a rate limiter, migration between bin widths, and the strategy that measures the table.
* **Microgrid power graph** (`Aggregation`, `AggregationOrder`, `AggregationRules`, `PowerBalance`, `PowerReadings`,
  `Microgrid`): Kahn's sort of meter sums, their evaluation in one pass, and conservation of device power over lossy
  links.
* **Power distributors** (`Distributor`, `DistributorLimits`, `DistributorOrder`, `DistributorLaws`, `DistributorSoc`):
  equal, proportional and SOC-weighted shares, and the four-pass limit with overflow transfer.
* **Leader election** (`ElectionModel`, `ElectionSafety`, `ElectionReports`, `ElectionProgress`, `ElectionTiming`,
  `LeaderElector`): any number of electors over an etcd with leases, as interleaved steps between awaits.
* **Modbus gateway** (`Codec`, `RegisterModel`, `RegisterMeaning`, `RegisterMap`, `PipelineModel`, `PipelineLaws`,
  `PipelineRules`, `PipelineRaises`, `WritePipeline`): integers in 16-bit words, named registers over two word arrays,
  and the pipeline for writes from the network (FC06 and FC16, sections 6.6 and 6.12 of the MODBUS Application Protocol
  Specification V1.1b3).
* **Timing, routing and reconciliation** (`TimeAnchor`, `Watchdog`, `RouterModel`, `RouterLaws`, `RouterPlan`,
  `RouterMeaning`, `CommandRouter`, `DriftModel`, `DriftLaws`, `DriftMeaning`, `DriftReconciler`): drift-free periodic
  loops, the communication watchdog, the table of desired values, and the repair of drifted setpoints.

`CompensatorResponse`, `CompensatorSteady`, `CalibrationLoop`, `PowerReadings`, `DistributorSoc`, `ElectionReports`,
`RegisterMeaning`, `PipelineRules`, `RouterMeaning` and `DriftMeaning` state what calls do in the quantities of their
callers, without the functions of the models.

`Numeric` and `Collections` hold arithmetic, sums and iteration over sets.

## Assumptions

* Floats are `real`, with the code's literal thresholds (1e-6, 1e-9). NaN, infinities and rounding are not modelled.
* A compensator is configured with positive rated power, bin width and ff_min; otherwise the code divides by zero.
  Run bounds also need output_min <= 0 <= output_max and ff_min <= 1 <= ff_max, dt >= 0 where a rate limit is set, and
  loaded tables within the factor limits, because `load_ff_table` does not clamp.
* `PowerMeterSimulator`, Modbus clients and etcd are not part of this model beyond this: a meter accumulates,
  copies and overwrites its readings; etcd grants fresh leases, writes the key only if absent and only under a live
  lease, drops it with its lease, and answers a keepalive of a dead lease with an error.
* A stretch of code between two awaits is one step. A routing call and a reconcile pass are one step each, and a
  device's cached reading reflects an accepted write. Whether a device accepts a write is an arbitrary function of
  the attempt.
* In timed election runs calls are instantaneous, timeouts are punctual, and `on_elected` has a time bound.
* Iteration over Python sets and dictionaries whose order is not fixed is modelled in arbitrary order.
* Distributed devices have distinct ids, so results are listed by position. A per-device limit is not negative.
* A device has a capability exactly if it binds a point to the slot of the mapping, and its bindings change only when
  devices are observed anew.
* Write validators are functions of name and value. Register definitions use the six integer types.

## Where the code does less than one might expect

* Steady-state learning changes the output when ff_min or ff_max acts (`BumplessLearning`, `ClampedLearningJumps`) and
  between two bin centres: always when discharging (`BumplessDischarge`), when charging unless the factors happen to
  satisfy one equation (`BumplessChargeIff`). A negative dt breaks the output limits under a rate limit
  (`RunsBoundedIff`).
* The comment on inheritance rules it out between setpoints of opposite signs; through the zero bin it happens
  (`InheritsAcrossSignsIff`, `InheritsAcrossSigns`).
* A stored table whose width does not divide 100 may be read back as another width (`RecoveredStep`).
* Calibration visits bins outside [min_pct, max_pct] (`RangeRespected`, `LowerLimitIgnored`), which its
  configuration calls the smallest and largest percentage. It records setpoint over measurement for charge bins too,
  which the compensator divides by: a calibrated plant of gain beta then delivers beta squared of the setpoint
  (`CalibratedPlant`, `LoopDelivers`). Without a settle cycle it judges the first reading of a bin, which is of the bin
  before (`SettleIff`, `StaleReading`).
* The fourth pass of the limit divides by a fixed headroom while the rest shrinks, so it can leave power unserved
  although the limits have room (`ServedExactly`, `RoomDoesNotSuffice`), and from four devices on give the one with the
  smaller share more (`KeepsOrderIff`). The fallbacks ignore the limits (`LimitRespectedIff`).
* Of several devices with one id, a link finds the first only, and the power of the others is lost
  (`AlwaysConservesIff`, `SharedIdLosesPower`).
* `resign` leaves the node LEADER (`ResignedStaysLeader`), a fenced node does not campaign again (`FencedForever`), and
  self-fencing with the default TTL and failure count comes at the moment of expiry, not before it
  (`DefaultsOnTheEdge`). An `on_elected` that raises leaves a LEADER that campaigns again (`RaisingCallbackEscapes`).
* The comment on `ByteOrder` says it arranges the bytes inside a register. The code never swaps those; little endian
  reverses the order of the words (`LittleIsReversed`).
* A clamping rule with a bound the register cannot hold makes the write raise (`HalfBoundRaises`). The registers before
  it stay written (`HalfWritten`, `HalfWrittenInput`).
* A broadcast or capability mapping whose transformation returns NO_CHANGE puts it into the table of desired values, a
  capability mapping even for a single device, where an explicit mapping is guarded (`NeverNoChangeIff`,
  `CallCleanIff`, `UnguardedRecordsNoChange`).

## Model

| member | source | states |
|---|---|---|
| `FFTable.ReadOnCell` | csp_lib/controller/compensator.py:770-792 | inside a cell of the table the interpolated factor lies on the straight line through its two bins |
| `FFTable.ReadSaturates` | csp_lib/controller/compensator.py:770-792 | beyond the first and last bin the factor is the end bin's |
| `FFTable.MigratedBinSamples` | csp_lib/controller/compensator.py:975-991 | a migrated bin is the stored interpolant at its own percentage, or keeps its value beyond the stored range |
| `FFTable.RefiningPreservesReads` | csp_lib/controller/compensator.py:964-1003 | loading a full table into a width that divides the stored one, both dividing 100, leaves the factor read at every power unchanged, saturated ends included |
| `FFTable.CoarseningKeepsNodes` | csp_lib/controller/compensator.py:964-1003 | loading into a coarser width keeps the stored factor of every retained bin |
| `FFTable.RecoveredStep` | csp_lib/controller/compensator.py:972-978 | the width recovered from the largest index is the stored one if and only if no wider one has as many bins; 13 percent is read back as 14 |
| `Compensator.PowerCompensator.Compensate` | csp_lib/controller/compensator.py:434-538 | one call changes every field exactly as the state function says and returns the new last output, or raises exactly where learning divides by a zero factor of a loaded table |
| `Compensator.PowerCompensator.ApplySetpointChangePolicy` | csp_lib/controller/compensator.py:794-807 | the new state after the setpoint policy, and nothing else changes |
| `Compensator.PowerCompensator.InheritFF` | csp_lib/controller/compensator.py:809-824 | the table after inheritance from the old setpoint's bin |
| `Compensator.PowerCompensator.Integrate` | csp_lib/controller/compensator.py:482-508 | hold window, asymmetric anti-windup and clamped integral |
| `Compensator.PowerCompensator.ClampIntegral` | csp_lib/controller/compensator.py:826-832 | the integral is limited to what the contribution bound allows |
| `Compensator.PowerCompensator.Learn` | csp_lib/controller/compensator.py:523-534 | a saturated call counts and may learn the physical factor, any other may learn the steady one, never both |
| `Compensator.PowerCompensator.LearnIfSteady` | csp_lib/controller/compensator.py:834-882 | steady counter and, once it is reached, the steady-state update; raises exactly when that does |
| `Compensator.PowerCompensator.Absorb` | csp_lib/controller/compensator.py:861-882 | the integral term moves into the bin, within the factor limits; a zero factor raises when charging with an integral term to absorb |
| `Compensator.PowerCompensator.LearnFromSaturation` | csp_lib/controller/compensator.py:884-951 | the saturated update of one bin behind its four guards |
| `Compensator.PowerCompensator.UpdateFFBin` | csp_lib/controller/compensator.py:580-631 | a known bin and a non-negative ratio are accepted and clamped; anything else changes nothing |
| `Compensator.PowerCompensator.Reset` | csp_lib/controller/compensator.py:542-553 | every field but the table is back to its start |
| `Compensator.PowerCompensator.LoadFFTable` | csp_lib/controller/compensator.py:566-578 | exactly the known bins of the given table are taken over |
| `Compensator.PowerCompensator.LoadStored` | csp_lib/controller/compensator.py:964-1003 | the table after loading, migrated or overlaid, whatever the order of iteration; it raises exactly when a file index exceeds 100 |
| `CompensatorRuns.Run` | csp_lib/controller/compensator.py:434-538 | on every run from a fresh table, with dt >= 0 wherever a rate limit is set: output within its limits, every bin within the factor limits, contribution of the integral at most integral_max_ratio times rated, integral 0 whenever the hold counter is positive |
| `CompensatorRuns.Live` | csp_lib/controller/compensator.py:434-631 | the object, over any calls, bin updates, table loads and resets, ends in the state of that run |
| `CompensatorRuns.CallKeepsInv` | csp_lib/controller/compensator.py:434-538 | one call keeps all those bounds, whatever is measured |
| `CompensatorRuns.NextKeepsInv` | csp_lib/controller/compensator.py:542-631 | so do bin updates, table loads within the limits, and both resets |
| `CompensatorRuns.ContributionBounded` | csp_lib/controller/compensator.py:715-730 | the integral clamp is a bound on Ki times the integral |
| `CompensatorRuns.OutputBounded` | csp_lib/controller/compensator.py:510-521 | limits and rate limiter together keep the output within its limits, for any dt without a rate limit, and for dt >= 0 with one |
| `CompensatorRuns.AntiWindup` | csp_lib/controller/compensator.py:482-508 | saturated feed-forward never drives the integral further into its limit, and errors within the deadband do not integrate |
| `CompensatorRuns.RateLimited` | csp_lib/controller/compensator.py:516-521 | on every run the output of a nonzero setpoint differs from the output before it by at most rate_limit times dt |
| `CompensatorRuns.OutputBoundedIff` | csp_lib/controller/compensator.py:510-521 | a given dt keeps every output within its limits if and only if no rate limit is set or dt >= 0 |
| `CompensatorEscape.RunsBoundedIff` | csp_lib/controller/compensator.py:434-538 | every run of calls with a given dt from a fresh compensator stays within the output limits if and only if no rate limit is set or dt >= 0 |
| `CompensatorEscape.EscapingRun` | csp_lib/controller/compensator.py:516-521 | with a rate limit and dt < 0, k calls on target end at k times rate_limit times -dt, up to the first k for which that is past the output limit |
| `CompensatorResponse.CallAnswers` | csp_lib/controller/compensator.py:434-521 | every call with a nonzero setpoint, in every state: the answer is the interpolated feed-forward plus integral_max_ratio / integral_time times the integral, which takes the error times dt where it counts and stays within rated power times that time; limited; or the step of rate_limit times dt toward that |
| `CompensatorResponse.PathExists` | csp_lib/controller/compensator.py:434-521 | and such values exist for every call |
| `CompensatorResponse.FactorIsRead` | csp_lib/controller/compensator.py:770-792 | the factor of a power is on the line between the two bins around it, in multiples of bin width times rated power |
| `CompensatorResponse.CountsIff` | csp_lib/controller/compensator.py:732-754 | an error counts if it is beyond three sigma of the noise, and beyond the share of rated power or of the setpoint |
| `CompensatorResponse.PushesBack` | csp_lib/controller/compensator.py:482-521 | in the same state, for dt > 0, a call that measures less never answers less |
| `CompensatorResponse.RunPushesBack` | csp_lib/controller/compensator.py:434-521 | the same after every run |
| `CompensatorResponse.BinTakes` | csp_lib/controller/compensator.py:580-631 | a known bin takes a ratio that is not negative, limited; anything else changes nothing |
| `CompensatorSteady.CallCounts` | csp_lib/controller/compensator.py:455-534 | every call notes its setpoint; at a limit it counts as saturated and ends a row of calm calls; off the limits, calm calls are counted, and enough of them start a new row |
| `CompensatorSteady.CallLearns` | csp_lib/controller/compensator.py:834-882 | the call that completes a row, if the integral adds more than the deadband, gives the bin the limited factor that would absorb what the integral adds, and clears the integral if that is a change |
| `CompensatorSteady.CalmRun` | csp_lib/controller/compensator.py:834-882 | over any run of calm calls at one setpoint the count starts anew every steady_state_seconds / dt calls |
| `CompensatorSteady.CalmTable` | csp_lib/controller/compensator.py:834-882 | and only calls that complete a row change the table |
| `CompensatorSteady.CyclesNearest` | csp_lib/controller/compensator.py:46-53 | a time becomes the nearest number of cycles, or the floor |
| `Numeric.RoundNearest` | csp_lib/controller/compensator.py:46-53 | rounding is to the nearest integer, and to the even one of two |
| `CompensatorSteady.BinNearest` | csp_lib/controller/compensator.py:763-768 | the bin of a power is at most half a bin away, or the last one on its side |
| `CompensatorSteady.WindowMoves` | csp_lib/controller/compensator.py:493-508 | every call in a hold window counts, and shortens it unless the error is smaller than before by more than the deadband; after three times its length it ends at once |
| `CompensatorSteady.ZeroForgets` | csp_lib/controller/compensator.py:448-454 | a zero setpoint answers zero and forgets integral, setpoint and calm calls |
| `CompensatorHold.HoldAfter` | csp_lib/controller/compensator.py:493-508 | the hold counter after k calls, exactly: one less per call whose error did not shrink, cut off at three times its start |
| `CompensatorHold.HoldWindow` | csp_lib/controller/compensator.py:493-508 | after a change with hold h >= 1 the hold branch is taken by exactly the first n calls, h + 1 <= n <= 3h, whatever is measured |
| `CompensatorBumpless.OneBinRead` | csp_lib/controller/compensator.py:763-792 | at a bin centre or beyond the last bin, reading and learning use the same bin |
| `CompensatorBumpless.AbsorbingReproduces` | csp_lib/controller/compensator.py:866-872 | the absorbing factor gives feed-forward plus the integral term, for either sign, unless the old factor is kept |
| `CompensatorBumpless.BumplessLearning` | csp_lib/controller/compensator.py:834-882 | an update at a one-bin setpoint of either sign zeroes the integral and leaves feed-forward plus Ki times integral unchanged if and only if ff_min and ff_max do not act |
| `CompensatorBumpless.BumplessDischarge` | csp_lib/controller/compensator.py:834-882 | at any discharge setpoint an update leaves that sum unchanged if and only if the read involves one bin and ff_min and ff_max do not act |
| `CompensatorBumpless.BumplessCharge` | csp_lib/controller/compensator.py:834-882 | at any charging setpoint, limits acting or not, an update leaves that sum unchanged if and only if -gain * (old * target) == (old - target) * (f * (f + gain)), with f the factor read and gain what the read gains |
| `CompensatorBumpless.BumplessChargeIff` | csp_lib/controller/compensator.py:770-882 | if ff_min and ff_max do not act, that is: the read involves one bin, or the square of the second bin's factor is w * (old - other) * (target - other), w the weight of the learned bin |
| `CompensatorBumpless.ChargingCoincidence` | csp_lib/controller/compensator.py:770-792 | an instance of that equation between two bins: 0.36 on both sides, and the sum stays -20 |
| `CompensatorLearning.PhysicalIsTarget` | csp_lib/controller/compensator.py:923-932 | with plant gain beta the observed factor is 1/beta when discharging and beta when charging |
| `CompensatorLearning.StepContracts` | csp_lib/controller/compensator.py:934-942 | a step moves toward the target without passing it and shrinks the distance d by exactly min(alpha d, max_step) |
| `CompensatorLearning.SaturationContracts` | csp_lib/controller/compensator.py:884-951 | each saturated call leaves the table alone or contracts the bin so; with usable readings it moves exactly when the step exceeds 1e-6 |
| `CompensatorLearning.UpdatesBounded` | csp_lib/controller/compensator.py:884-951 | over any calls of the saturated learning step on a bin, updates times 1e-6 is at most the distance travelled |
| `CompensatorLearning.SaturationSettles` | csp_lib/controller/compensator.py:884-951 | after more than distance / 1e-6 usable calls of that step the next one moves at most 1e-6 |
| `CompensatorSaturation.AlwaysSaturated` | csp_lib/controller/compensator.py:458-480 | a setpoint beyond the output limit at ff_min (or, charging, at ff_max) saturates whatever the table holds within the factor limits |
| `CompensatorSaturation.CallContracts` | csp_lib/controller/compensator.py:434-538 | a whole call at a saturated setpoint of a plant with gain beta leaves the table alone or contracts the bin by exactly one step; one past hold and escape count, with large enough readings, does so exactly when the step exceeds 1e-6 |
| `CompensatorSaturation.RunContracts` | csp_lib/controller/compensator.py:434-538 | over any run of such calls 1e-6 times the updates is at most the distance travelled, and either every call that might learn did or the bin has settled |
| `CompensatorSaturation.RunSettles` | csp_lib/controller/compensator.py:434-538 | after more than distance / 1e-6 calls beyond the longest hold and the escape count the next step is at most 1e-6 |
| `CompensatorLearning.InheritanceFillsBlank` | csp_lib/controller/compensator.py:809-824 | the new setpoint's bin takes the old one's factor if and only if the bins differ, are not on opposite sides of zero, and the new one is unlearned and the old one learned; no other bin changes |
| `CompensatorLearning.InheritsAcrossSignsIff` | csp_lib/controller/compensator.py:817-823 | between setpoints of opposite signs a factor is inherited if and only if one of them falls into the zero bin, the new bin is unlearned and the old one learned |
| `CompensatorLearning.InheritsAcrossSigns` | csp_lib/controller/compensator.py:817-823 | an input: the factor learned at a small charging setpoint, in the zero bin, goes to a discharge bin |
| `Calibration.FFCalibrationStrategy.OnActivate` | csp_lib/controller/calibration.py:202-216 | the state at the start of a run |
| `Calibration.FFCalibrationStrategy.BuildBinSequence` | csp_lib/controller/calibration.py:252-271 | discharge bins outward from zero, then charge bins outward from -1 |
| `Calibration.FFCalibrationStrategy.Execute` | csp_lib/controller/calibration.py:126-200 | the new state, the reply, and the compensator's table, which changes only in the finishing call |
| `Calibration.FFCalibrationStrategy.Finish` | csp_lib/controller/calibration.py:273-297 | exactly the recorded bins of the compensator are written, clamped to its limits |
| `Calibration.FFCalibrationStrategy.Live` | csp_lib/controller/calibration.py:126-216 | the object, over any calls after activation, ends in the state of the model's run and replies what the model answers, call by call |
| `CalibrationLaws.BinsVisited` | csp_lib/controller/calibration.py:252-271 | the visited bins are distinct and are exactly the bins up to the upper and down to the lower end |
| `CalibrationLoop.SequenceMeans` | csp_lib/controller/calibration.py:252-271 | in percentages: discharge bins up to max_pct, zero unless skipped, charge bins down to the first at or below min_pct, none beyond 100; discharge first, each side outward from zero |
| `CalibrationLaws.RangeRespected` | csp_lib/controller/calibration.py:252-271 | every visited bin lies in [min_pct, max_pct] exactly under the stated condition; a positive min_pct, for one, does not skip the first bins |
| `CalibrationLaws.RecordedPlausible` | csp_lib/controller/calibration.py:156-182 | a nonzero bin's ratio before the [0.8, 1.5] clamp lies strictly between 1/(1+threshold) and 1/(1-threshold) |
| `CalibrationLaws.ZeroBinRecorded` | csp_lib/controller/calibration.py:174-182 | the zero bin records 1.0 only if its average is within 1e-6 of zero, else 0.8 |
| `CalibrationLaws.RecordsPlausiblyIff` | csp_lib/controller/calibration.py:156-182 | from exactly steady_cycles steady readings a nonzero bin with setpoint s and threshold t can only record factors from that band if and only if |s| > 1e-6, or |s| + t <= 1e-6, or t > 1/4 |
| `CalibrationLaws.RunRecords` | csp_lib/controller/calibration.py:126-200 | on every run the result keys are exactly the first bin_index bins of the sequence, and every nonzero one holds a plausible ratio |
| `CalibrationLaws.FinishWrites` | csp_lib/controller/calibration.py:273-286 | finishing changes only visited bins and gives each nonzero one a plausible ratio within the compensator's limits |
| `CalibrationLaws.Duration` | csp_lib/controller/calibration.py:151-198 | no run finishes before bins times (settle + steady) measured calls, and one with only steady measurements finishes exactly then |
| `CalibrationEffect.GainFinishes` | csp_lib/controller/calibration.py:151-198 | with a plant of constant gain beta, |1 - beta| below the threshold, a run finishes after exactly bins times (settle + steady) measured calls |
| `CalibrationEffect.CalibratedRead` | csp_lib/controller/calibration.py:170-178 | if the plant delivers beta times the setpoint in every judged call, a finished run makes each visited bin read 1/beta, within all limits |
| `CalibrationEffect.CalibratedPlant` | csp_lib/controller/compensator.py:474-480 | with 1/beta inside the limits the plant then delivers the setpoint of a visited bin if and only if it is no charge bin or beta is 1; for a charge bin it delivers beta squared of it |
| `CalibrationLoop.CallCommands` | csp_lib/controller/calibration.py:126-200 | a call while stepping commands rated times bin times step_pct / 100 of the bin it begins with; the finishing call and later ones command zero |
| `CalibrationLoop.LoopIsGain` | csp_lib/controller/calibration.py:146-154 | in closed loop, where each call measures beta times what the call before commanded, every judged call with a settle cycle is shown beta times its own setpoint |
| `CalibrationLoop.SettleIff` | csp_lib/controller/calibration.py:151-154 | that holds for all closed loops if and only if settle_wait_cycles >= 1 |
| `CalibrationLoop.StaleReading` | csp_lib/controller/calibration.py:184-200 | without a settle cycle the first reading after a bin has ended is of the old bin |
| `CalibrationLoop.LoopFinishes` | csp_lib/controller/calibration.py:126-200 | a closed loop with a gain within the threshold of 1 finishes after exactly bins times (settle + steady) measured calls |
| `CalibrationLoop.LoopCalibrates` | csp_lib/controller/calibration.py:126-297 | a finished closed loop makes each visited bin read 1/beta, within all limits |
| `CalibrationLoop.LoopDelivers` | csp_lib/controller/calibration.py:126-297 | and the plant then delivers the setpoint of a visited bin if and only if it is no charge bin or beta is 1; for a charge bin beta squared of it |
| `Aggregation.StuckMeansCycle` | csp_lib/modbus_server/microgrid.py:368-387 | an ordering that cannot grow and is not complete means a real cycle |
| `Aggregation.OrderedHasNoCycle` | csp_lib/modbus_server/microgrid.py:368-387 | a complete ordering rules a cycle out |
| `Aggregation.CompleteIffAcyclic` | csp_lib/modbus_server/microgrid.py:385-387 | the result is complete if and only if the dependency graph has no cycle |
| `AggregationOrder.InitialQueue` | csp_lib/modbus_server/microgrid.py:370-371 | the queue starts with exactly the nodes without dependencies |
| `AggregationOrder.Release` | csp_lib/modbus_server/microgrid.py:377-383 | finishing a node takes one dependency off each node that has it and queues those left with none, each at most once |
| `AggregationOrder.KahnOrder` | csp_lib/modbus_server/microgrid.py:368-383 | the loop ends, with distinct nodes each after all its dependencies, and no further node could be added |
| `AggregationRules.BuildDependencies` | csp_lib/modbus_server/microgrid.py:356-366 | target t depends on exactly those of its sources that are targets |
| `AggregationRules.BuildAggregationOrder` | csp_lib/modbus_server/microgrid.py:346-387 | a cycle is reported if and only if there is one; otherwise every rule appears once, after all rules whose target it sums |
| `AggregationRules.PassSolves` | csp_lib/modbus_server/microgrid.py:553-557 | one pass in such an order makes every equation target = sum of sources hold at once |
| `AggregationRules.SolutionUnique` | csp_lib/modbus_server/microgrid.py:553-557 | no other readings satisfy those equations |
| `AggregationRules.OrderIrrelevant` | csp_lib/modbus_server/microgrid.py:553-557 | any two topological orders of the same rules give the same readings |
| `AggregationRules.PassIsRecursive` | csp_lib/modbus_server/microgrid.py:553-557 | the pass gives every meter its recursive sum over the rules |
| `PowerBalance.UnlinkedIsDeviceSum` | csp_lib/modbus_server/microgrid.py:412-467 | the category-wise net power equals the signed sum of the devices that are not linked |
| `PowerBalance.LinkedBalance` | csp_lib/modbus_server/microgrid.py:529-540 | what links deliver, lose and never see, and what stays unlinked, make up the whole fleet |
| `PowerBalance.Balance` | csp_lib/modbus_server/microgrid.py:522-547 | for every fleet: with a default meter, all meters together hold the signed power of every device once, less the link losses and less what devices show that share a linked id with an earlier one |
| `PowerBalance.ConservesIff` | csp_lib/modbus_server/microgrid.py:522-547 | only the link losses are missing if and only if the contributions of those shadowed devices sum to zero |
| `PowerBalance.AlwaysConservesIff` | csp_lib/modbus_server/microgrid.py:405-410 | only the link losses are missing whatever the devices show if and only if every linked id belongs to one device only |
| `PowerBalance.SharedIdLosesPower` | csp_lib/modbus_server/microgrid.py:405-410 | an input: of two loads with one linked id the second one is lost |
| `PowerBalance.Conservation` | csp_lib/modbus_server/microgrid.py:522-547 | in particular when every linked id belongs to one device only; other ids may be shared |
| `PowerBalance.LinkingIrrelevant` | csp_lib/modbus_server/microgrid.py:522-547 | without losses the total is the same for any two ways of linking devices whose ids are their own |
| `PowerReadings.MeterReading` | csp_lib/modbus_server/microgrid.py:522-543 | each single meter shows what the links that end there bring, each the signed power of the first device with its id less the loss; the default meter also the signed power of every device no link names |
| `PowerReadings.LinkedReading` | csp_lib/modbus_server/microgrid.py:529-540 | after step 7a a meter holds the sum over the links that end there |
| `Microgrid.MicrogridSimulator.AddMeter` | csp_lib/modbus_server/microgrid.py:220-236 | a new id is registered, the first becomes the default, a known id changes nothing; different ids stay different objects if and only if the meter was not registered before |
| `Microgrid.MicrogridSimulator.AddDevice` | csp_lib/modbus_server/microgrid.py:255-265 | the device joins the list of its kind; links stay resolvable |
| `Microgrid.MicrogridSimulator.AddDeviceLink` | csp_lib/modbus_server/microgrid.py:293-314 | a link is kept exactly when device and meter are known and the device has none yet |
| `Microgrid.MicrogridSimulator.AddMeterAggregation` | csp_lib/modbus_server/microgrid.py:318-344 | after any sequence of calls the order is a topological order of exactly the accepted rules; a rejection leaves rules and order as they were |
| `Microgrid.MicrogridSimulator.DistributePower` | csp_lib/modbus_server/microgrid.py:522-543 | steps 6, 7a and 7b leave on the meter objects exactly the balanced readings; ids that share an object count as one |
| `Microgrid.MicrogridSimulator.LinkDevices` | csp_lib/modbus_server/microgrid.py:529-538 | step 7a adds every link's delivered power to the object of its meter id |
| `Microgrid.MicrogridSimulator.FinalizeMeters` | csp_lib/modbus_server/microgrid.py:545-547 | step 7c copies every accumulator to the raw reading and shows it with the meter's sign, whatever ids share an object |
| `Microgrid.MicrogridSimulator.Aggregate` | csp_lib/modbus_server/microgrid.py:553-557 | step 8 in place equals the pass over the sorted rules, each id standing for its object |
| `Microgrid.MicrogridSimulator.Settle` | csp_lib/modbus_server/microgrid.py:522-557 | steps 6 to 8 together, whatever ids share an object: every meter shows its reading with its sign; with different objects every aggregation equation holds at once over the balanced readings |
| `Distributor.Proportional` | csp_lib/integration/distributor.py:128-150 | shares by rating, or equal ones when the ratings sum to nothing |
| `Distributor.SocBalancing` | csp_lib/integration/distributor.py:228-315 | the SOC-weighted result on every path, fallbacks included |
| `Distributor.ApplyClampAndOverflow` | csp_lib/integration/distributor.py:317-400 | the four passes over one axis compute the specified limited values |
| `Distributor.ClampPass` | csp_lib/integration/distributor.py:341-355 | every value limited, and the sum of what was cut off |
| `Distributor.SpreadPass` | csp_lib/integration/distributor.py:357-370 | the overflow goes to the devices pass 1 did not limit |
| `Distributor.FillPass` | csp_lib/integration/distributor.py:381-391 | the second overflow is handed out in turn, against a fixed total headroom |
| `DistributorLaws.EqualSplits` | csp_lib/integration/distributor.py:101-108 | equal shares sum to the command on each axis and keep NO_CHANGE |
| `DistributorLaws.ProportionalSplits` | csp_lib/integration/distributor.py:128-150 | so do proportional shares, on the fallback too |
| `DistributorLaws.ProportionalByRating` | csp_lib/integration/distributor.py:128-150 | any two shares are in the proportion of the ratings, on both axes |
| `DistributorLaws.ZeroGainIsProportional` | csp_lib/integration/distributor.py:263-307 | without gain and limits the SOC distributor gives the proportional shares, for every command |
| `DistributorLaws.SocSplits` | csp_lib/integration/distributor.py:228-315 | on every path an axis without a limit is split without loss, and each device has an axis exactly when the command has it |
| `DistributorSoc.SocProportion` | csp_lib/integration/distributor.py:263-307 | on the weighted path without a limit, P goes in proportion to rating times max(100 + gain * (soc - average), 0) percent, minus when charging, a missing SOC counting as the average of the others, and Q in proportion to the ratings |
| `DistributorSoc.BalancedIff` | csp_lib/integration/distributor.py:250-297 | that path is taken if and only if something is rated, some SOC is known and those weights do not sum to zero |
| `DistributorSoc.Fallback` | csp_lib/integration/distributor.py:245-297 | otherwise both axes go by rating, or equally when nothing is rated |
| `DistributorSoc.LimitsAfterwards` | csp_lib/integration/distributor.py:309-313 | a limit acts on the shares there would be without it, on its own axis only |
| `DistributorLaws.SocOrder` | csp_lib/integration/distributor.py:263-297 | for gain >= 0 and equal ratings the fuller device discharges at least as much and charges at most as much; under a limit, if no rating is negative, and the one that is to work harder is listed first or there are fewer than four devices |
| `DistributorLaws.SocLimitBinds` | csp_lib/integration/distributor.py:309-313 | on the SOC-weighted path every device stays within both limits |
| `DistributorLaws.LimitRespectedIff` | csp_lib/integration/distributor.py:250-313 | over all paths and for each axis: the limit is respected if and only if the path is SOC-weighted or the fallback share fits by itself, |command| <= n * limit for equal shares and |command * rating| <= limit * total for rated ones |
| `DistributorLaws.SocServes` | csp_lib/integration/distributor.py:280-315 | with non-negative ratings the limited P shares never exceed the command and, with room for it, miss at most max(1e-9, half the second overflow) |
| `DistributorLimits.SpreadByAssignment` | csp_lib/integration/distributor.py:357-370 | what pass 2 adds to two free devices is in the proportion of their assignments |
| `DistributorLimits.LimitBounds` | csp_lib/integration/distributor.py:317-400 | for every input no value exceeds the limit in magnitude |
| `DistributorLimits.LimitServes` | csp_lib/integration/distributor.py:317-400 | for shares of one sign each device keeps its sign and gets at least min(share, limit), the total is never more than asked, and with room for the demand the shortfall is at most max(1e-9, half the second overflow) |
| `DistributorLimits.Accounting` | csp_lib/integration/distributor.py:317-400 | for any shares, of mixed signs too, every unit asked for is delivered or lost in exactly one pass |
| `DistributorLimits.LeftIsProduct` | csp_lib/integration/distributor.py:381-391 | what pass 4 leaves is the overflow times the product of (1 - h/T), unless it stops early below 1e-9 |
| `DistributorLimits.LeftHalf` | csp_lib/integration/distributor.py:381-391 | that is at most half of the overflow when the headroom covers it |
| `DistributorLimits.LeftNothing` | csp_lib/integration/distributor.py:381-391 | it is zero if and only if one device has all the headroom |
| `DistributorLimits.ServedExactly` | csp_lib/integration/distributor.py:317-400 | a demand of one sign that fits is served in full if and only if each pass cut nothing or enough to move, the second time to a single device |
| `DistributorLimits.RoomDoesNotSuffice` | csp_lib/integration/distributor.py:381-391 | 30 asked of four devices limited to 10 is not served in full |
| `DistributorLimits.LimitedMirror` | csp_lib/integration/distributor.py:317-400 | reversing every share reverses the result |
| `DistributorOrder.ThirdPassOrder` | csp_lib/integration/distributor.py:341-380 | of two shares of one sign the larger is still at least as large after pass 3 |
| `DistributorOrder.KeepsOrderIff` | csp_lib/integration/distributor.py:317-400 | over all shares of one sign and all limits the larger of the shares of devices i and j is never limited below the smaller if and only if it is handed out first or there are fewer than four devices |
| `DistributorOrder.LimitKeepsOrder` | csp_lib/integration/distributor.py:317-400 | the order kept under either condition |
| `DistributorOrder.Reverses` | csp_lib/integration/distributor.py:381-391 | for any four or more devices and any such pair, shares that end in reversed order |
| `ElectionSafety.StepKeepsInv` | csp_lib/cluster/election.py:78-297 | every step of any node, expiry and passage of time keeps the invariant on leases, key and nodes |
| `ElectionSafety.OneRuler` | csp_lib/cluster/election.py:168-200 | over every interleaving at most one LEADER's winning lease is live, the key carries that node's value, and it reports itself as leader |
| `ElectionSafety.OneLeader` | csp_lib/cluster/election.py:168-200 | the same for the `_lease` field, in runs where no on_elected raised |
| `ElectionSafety.RaisingCallbackEscapes` | csp_lib/cluster/election.py:150-192 | after a raising on_elected two nodes can be LEADER with a live `_lease`, whatever the configuration |
| `ElectionSafety.FencedForever` | csp_lib/cluster/election.py:218-245 | once its keepalive loop has given up, no event but stop changes a node in any way, so it never campaigns again |
| `ElectionSafety.ResignedStaysLeader` | csp_lib/cluster/election.py:131-148 | a run without any failure in which a resigned node is still LEADER when another has won |
| `ElectionReports.ReportsLastTold` | csp_lib/cluster/election.py:168-297 | on every run a node reports the leader it was last told of: itself when it wins, the key's value when it reads one, none once a failed keepalive has demoted it |
| `ElectionReports.ReportedWon` | csp_lib/cluster/election.py:183-206 | and every leader any node reports has won an election in the run |
| `ElectionProgress.StateTells` | csp_lib/cluster/election.py:168-297 | on every run a node's state is that of its place in the code: watching means FOLLOWER without a lease, the keepalive loop LEADER, a fenced loop FOLLOWER, and only a raise lets a LEADER campaign |
| `ElectionProgress.LoserLetsGo` | csp_lib/cluster/election.py:200-216 | a loser that gives its lease up is left without one; that lease is gone, every other lease and the winner's key stay |
| `ElectionProgress.WatcherTakesOver` | csp_lib/cluster/election.py:150-282 | once the key is gone any watching node can become the leader in three steps of its own, with a fresh lease of a whole TTL |
| `ElectionProgress.KeyExpires` | csp_lib/cluster/election.py:168-188 | and the key goes when its owner's lease expires |
| `ElectionTiming.LoopReach` | csp_lib/cluster/election.py:218-245 | with instantaneous calls a node is in its keepalive loop at most on_elected plus max_keepalive_failures intervals after its last renewal |
| `ElectionTiming.FencedInTimeIff` | csp_lib/cluster/election.py:218-245 | a failing node leaves LEADER by the expiry of its lease if and only if that sum is at most the TTL |
| `ElectionTiming.AlwaysSoleIff` | csp_lib/cluster/election.py:131-148 | two unresigned LEADERs at once are ruled out if and only if it is below the TTL |
| `ElectionTiming.DefaultsOnTheEdge` | csp_lib/cluster/config.py:57-62 | TTL 10 and 3 failures are in time only if on_elected takes no time, and do not rule out two LEADERs |
| `ElectionTiming.TwoLeaders` | csp_lib/cluster/election.py:218-245 | a run of every such configuration that ends with two LEADERs |
| `LeaderElection.LeaderElector.TransactionDone` | csp_lib/cluster/election.py:183-205 | LEADER and own leader on success; on failure the key is to be read |
| `LeaderElection.LeaderElector.LeaderRead` | csp_lib/cluster/election.py:201-206 | FOLLOWER of the read leader, or of the last known one |
| `LeaderElection.LeaderElector.ElectedCallbackReturned` | csp_lib/cluster/election.py:191-200 | the keepalive loop starts |
| `LeaderElection.LeaderElector.LeaderPolled` | csp_lib/cluster/election.py:254-282 | a missing key makes the node a candidate again |
| `LeaderElection.LeaderElector.KeepaliveDone` | csp_lib/cluster/election.py:218-245 | the failure counter, and self-fencing when it reaches its limit |
| `LeaderElection.LeaderElector.HandleDemotion` | csp_lib/cluster/election.py:284-297 | a LEADER becomes a FOLLOWER without a leader; others do not change |
| `LeaderElection.LeaderElector.On` | csp_lib/cluster/election.py:78-297 | each event of a run, on the object: its fields end as the step of the model says |
| `LeaderElection.ElectionCluster.Apply` | csp_lib/cluster/election.py:78-297 | an event on a cluster of elector objects over one etcd is one step of the model, and leaves the other electors alone |
| `LeaderElection.ElectionCluster.Live` | csp_lib/cluster/election.py:168-200 | any run on those objects ends in the state of the model's run, with at most one LEADER whose winning lease is live |
| `Codec.EncodeWords` | csp_lib/modbus/types/_register_helpers.py:14-39 | the words are the base-65536 digits of the two's complement, in the order both settings select together |
| `Codec.DecodeWords` | csp_lib/modbus/types/_register_helpers.py:42-69 | decoding reads the digits in that same order |
| `Codec.DecodeEncode` | csp_lib/modbus/types/numeric.py:113-137 | decoding an encoding gives the value back, for every integer type and both orders |
| `Codec.EncodeDecode` | csp_lib/modbus/types/numeric.py:113-137 | encoding what any words decode to gives exactly those words |
| `Codec.LittleIsReversed` | csp_lib/modbus/types/_register_helpers.py:30-37 | the byte order reverses the words and never swaps the bytes of a word: little endian with high words first is big endian with low words first |
| `Codec.EncodedAreWords` | csp_lib/modbus/types/numeric.py:34-47 | an encoding has as many words as the type, each below 65536 |
| `RegisterModel.AcceptedIff` | csp_lib/modbus_gateway/register_map.py:70-106 | a definition is accepted if and only if names stay distinct and ranges in bounds and disjoint per type |
| `RegisterModel.AffectedExact` | csp_lib/modbus_gateway/register_map.py:201-226 | a non-empty write finds exactly the definitions of the type with some written address in their range |
| `RegisterModel.PutElsewhere` | csp_lib/modbus_gateway/register_map.py:286-287 | writing one register leaves the words of every disjoint one alone |
| `RegisterModel.ReadBack` | csp_lib/modbus_gateway/register_map.py:261-310 | what is read after a write is the integer nearest the scaled value, rescaled, and the value itself if representable |
| `RegisterModel.WordsBack` | csp_lib/modbus_gateway/register_map.py:261-310 | a decoded value is stored as the very words it came from |
| `RegisterModel.AllValuesAt` | csp_lib/modbus_gateway/register_map.py:148-155 | the map holds each register's value under its name |
| `RegisterModel.SetUpdatesOne` | csp_lib/modbus_gateway/register_map.py:112-127 | after set_value the name-to-value map is the old one with that one name updated |
| `RegisterMeaning.DecodeMeans` | csp_lib/modbus/types/numeric.py:113-137 | the integer of one, two or four words: most significant first unless exactly one of the two orders is reversed, less the span from half of it on for signed types |
| `RegisterMeaning.ValueMeans` | csp_lib/modbus_gateway/register_map.py:290-310 | a value is what a register shows if and only if times the scale it is that integer |
| `RegisterMeaning.TakenIff` | csp_lib/modbus_gateway/register_map.py:261-287 | a register takes a value if and only if an integer of its type is within 1e-9 of the scaled value |
| `RegisterMeaning.RefusedHow` | csp_lib/modbus_gateway/register_map.py:261-287 | a refused value is out of range if an integer is that near, or else no integer |
| `RegisterMeaning.WordsMean` | csp_lib/modbus_gateway/register_map.py:261-287 | a taken value leaves words that show that integer over the scale |
| `RegisterMeaning.SetMeans` | csp_lib/modbus_gateway/register_map.py:112-127 | and in the map of all values exactly that name changes to it |
| `RegisterMeaning.RefusalMeans` | csp_lib/modbus_gateway/register_map.py:70-106 | a definition is refused because its name is taken, or it ends outside the address space, or it shares addresses with an accepted one; the error names the first such and exactly the shared addresses |
| `RegisterMap.StartValues` | csp_lib/modbus_gateway/register_map.py:57-64 | after creation every register reads its initial value as far as its scale can hold it, and zero without one |
| `RegisterMap.GatewayRegisterMap.Create` | csp_lib/modbus_gateway/register_map.py:48-64 | creation succeeds exactly when the definitions are well formed and every initial value can be encoded, and then holds exactly those |
| `RegisterMap.GatewayRegisterMap.Register` | csp_lib/modbus_gateway/register_map.py:70-106 | the refusal and its reason, or the definition appended |
| `RegisterMap.GatewayRegisterMap.SetValue` | csp_lib/modbus_gateway/register_map.py:112-127 | only the register's slice changes; an unknown name or a value that cannot be encoded changes nothing |
| `RegisterMap.GatewayRegisterMap.SetValueUnlocked` | csp_lib/modbus_gateway/register_map.py:261-287 | scaling, rounding within 1e-9, range check and encoding |
| `RegisterMap.GatewayRegisterMap.GetValue` | csp_lib/modbus_gateway/register_map.py:129-146 | the decoded and rescaled value, or an unknown name |
| `RegisterMap.GatewayRegisterMap.GetAllValues` | csp_lib/modbus_gateway/register_map.py:148-155 | the whole map at once |
| `RegisterMap.GatewayRegisterMap.FindAffected` | csp_lib/modbus_gateway/register_map.py:201-226 | the touched definitions in definition order |
| `PipelineLaws.IsSimultaneous` | csp_lib/modbus_gateway/pipeline.py:70-145 | a write that does not raise is one simultaneous update: decided registers hold their words, every other word of both arrays is as before |
| `PipelineLaws.SimultaneousUnique` | csp_lib/modbus_gateway/pipeline.py:70-145 | that update determines both arrays |
| `PipelineLaws.OrderIrrelevant` | csp_lib/modbus_gateway/pipeline.py:92-143 | the definition order changes neither whether a write raises nor what it leaves |
| `PipelineLaws.RaisesIff` | csp_lib/modbus_gateway/pipeline.py:137-138 | a write raises if and only if some register is to be set to a value that cannot be encoded |
| `PipelineRaises.StopsAt` | csp_lib/modbus_gateway/pipeline.py:137-138 | the first decided register that cannot be encoded ends the write: its error is returned, and everything is as the registers before it left it |
| `PipelineRaises.HalfWritten` | csp_lib/modbus_gateway/pipeline.py:70-145 | a raising write leaves one simultaneous update of the registers before the failing one, and the words untouched if and only if those held their words already |
| `PipelineRaises.HalfWrittenInput` | csp_lib/modbus_gateway/pipeline.py:92-138 | an input: of two registers the first is written, then the second raises |
| `PipelineLaws.UnclampedStoresReceived` | csp_lib/modbus_gateway/pipeline.py:92-138 | a register whose rule lets the value through holds precisely the words received |
| `PipelineLaws.ReportedChanges` | csp_lib/modbus_gateway/pipeline.py:108-143 | the returned list is computed from the values before the write only |
| `PipelineLaws.ChangesExact` | csp_lib/modbus_gateway/pipeline.py:141-143 | it has exactly the decided registers whose value differs, with old and new value |
| `PipelineLaws.ValueAfter` | csp_lib/modbus_gateway/pipeline.py:92-143 | with representable rule bounds decided holding registers get their value and all others keep theirs |
| `PipelineLaws.ReportsWhatChanged` | csp_lib/modbus_gateway/pipeline.py:139-143 | and the returned names are exactly those whose value in the map changed |
| `PipelineRules.BarredStays` | csp_lib/modbus_gateway/pipeline.py:92-137 | a register that the write does not reach in full, that is read-only, or whose value a validator or a rule without clamp bars, keeps words and value and is not reported, whatever else happens |
| `PipelineRules.AdmittedStored` | csp_lib/modbus_gateway/pipeline.py:130-143 | a value that nothing bars is stored as it is, or as the bound of the rule it is beyond, if the write does not raise |
| `PipelineRules.ChangedIsInside` | csp_lib/modbus_gateway/pipeline.py:130-143 | a register that a write changed without raising shows a value within its rule's bounds |
| `PipelineRules.RaisesMeans` | csp_lib/modbus_gateway/pipeline.py:137-138 | a write raises if and only if some register is to store a value it cannot hold |
| `PipelineLaws.HalfBoundRaises` | csp_lib/modbus_gateway/config.py:153-165 | a clamping limit of 0.5 on a 16-bit register makes the write raise |
| `PipelineModel.AffectedPlaceable` | csp_lib/modbus_gateway/pipeline.py:84-86 | the affected registers are distinct, in bounds and disjoint |
| `WritePipelines.WritePipeline.ProcessWrite` | csp_lib/modbus_gateway/pipeline.py:70-145 | the returned changes or error, and the words left behind even when it stops half-way |
| `WritePipelines.WritePipeline.WriteOne` | csp_lib/modbus_gateway/pipeline.py:92-143 | one register: coverage, writability, validators, rule, write, report, in this order |
| `WritePipelines.WritePipeline.Accepts` | csp_lib/modbus_gateway/pipeline.py:117-128 | every validator must accept |
| `TimeAnchor.NeverEarly` | csp_lib/core/_time_anchor.py:22-79 | no pass begins before its target |
| `TimeAnchor.DelayRange` | csp_lib/core/_time_anchor.py:61-79 | every delay lies in [0, interval] |
| `TimeAnchor.NoDrift` | csp_lib/core/_time_anchor.py:61-79 | without a reset the target k passes later is exactly k intervals later |
| `TimeAnchor.RateBound` | csp_lib/core/_time_anchor.py:61-79 | however long the work takes, a run spanning time D has fewer than D / interval + 3 passes |
| `TimeAnchor.ExactTicks` | csp_lib/core/_time_anchor.py:27-34 | with exact sleeps and instantaneous work pass i begins at anchor + i intervals |
| `Watchdog.CallbacksAlternate` | csp_lib/modbus_gateway/watchdog.py:129-149 | over any requests and checks the callbacks alternate, timeout first, and the flag tells which came last |
| `Watchdog.SilenceFlagged` | csp_lib/modbus_gateway/watchdog.py:121-154 | silence is flagged no later than timeout plus check interval after the last request |
| `Watchdog.FlagMeansSilence` | csp_lib/modbus_gateway/watchdog.py:131-145 | after a check the flag is up if and only if the last request is longer ago than the timeout |
| `Watchdog.CommunicationWatchdog.CheckNow` | csp_lib/modbus_gateway/watchdog.py:131-149 | flag and callback of one check; a callback exactly when the flag flips |
| `Watchdog.CommunicationWatchdog.Live` | csp_lib/modbus_gateway/watchdog.py:121-154 | any interleaving of requests and checks on the object |
| `RouterLaws.TableIsLastWrites` | csp_lib/integration/command_router.py:59-69 | after any run the table maps each device and point to the last value the device accepted since it was last removed |
| `RouterLaws.BroadcastCleanIff` | csp_lib/integration/command_router.py:170-234 | an unguarded write to a list of devices, with one value or one per device, at a named point or at the one each binds, leaves NO_CHANGE in a clean table if and only if it has NO_CHANGE for a reachable device that accepts it, and no later accepted value there |
| `RouterLaws.UnguardedRecordsNoChange` | csp_lib/integration/command_router.py:92-130 | a transformation to NO_CHANGE in a broadcast or capability mapping ends up in the table, even if the capability mapping names one device |
| `RouterPlan.CallIsPlan` | csp_lib/integration/command_router.py:71-130 | a routing call, per device or not, makes exactly the attempts listed from the mappings, explicit and capability ones, and the devices' status before it, in that order |
| `RouterPlan.CallCleanIff` | csp_lib/integration/command_router.py:71-130 | it leaves NO_CHANGE in a clean table if and only if some listed attempt with NO_CHANGE is accepted and no later one at the same point is |
| `RouterPlan.NeverNoChangeIff` | csp_lib/integration/command_router.py:71-319 | over all runs of both routing calls and all answers of the devices the table never holds NO_CHANGE if and only if no broadcast and no capability mapping yields it for any command |
| `RouterMeaning.CallHolds` | csp_lib/integration/command_router.py:71-319 | after a routing call every point holds, in table and cache, the transformed command field of the last mapping whose attempt there was accepted; a missing field, NO_CHANGE or a raising transformation writes nothing, and where no attempt was accepted the point is as before |
| `RouterMeaning.RoutedSettles` | csp_lib/integration/command_router.py:80-130 | each mapping alone: a point it wants to write then holds its value, or the device refused; all other points are as before |
| `RouterMeaning.UnregisterForgets` | csp_lib/integration/registry.py:114-140 | a device leaves registry, roster, trait lists and table; all others keep their places in order |
| `CommandRouters.CommandRouter.TryWriteSingle` | csp_lib/integration/command_router.py:132-164 | success exactly when the value is a value, the device reachable and the write accepted; then the table records it |
| `CommandRouters.CommandRouter.WriteAndRecord` | csp_lib/integration/command_router.py:321-333 | the record follows a successful write only |
| `CommandRouters.CommandRouter.WriteTraitBroadcast` | csp_lib/integration/command_router.py:170-181 | every reachable device of the trait, in id order |
| `CommandRouters.CommandRouter.WriteCapabilitySingle` | csp_lib/integration/command_router.py:183-202 | the named device, if reachable and bound to a point for the slot |
| `CommandRouters.CommandRouter.WriteCapabilityTrait` | csp_lib/integration/command_router.py:204-220 | every reachable device of the trait that binds the slot, in id order |
| `CommandRouters.CommandRouter.WriteCapabilityAuto` | csp_lib/integration/command_router.py:222-234 | every reachable device that binds the slot |
| `CommandRouters.CommandRouter.Route` | csp_lib/integration/command_router.py:71-319 | the mappings in order, explicit before capability ones, over the state the one before left; per device the capability mappings take each device's own command |
| `CommandRouters.CommandRouter.UnregisterDevice` | csp_lib/integration/registry.py:114-140 | the device leaves registry, trait lists and table; an unknown one changes nothing |
| `CommandRouters.CommandRouter.Live` | csp_lib/integration/command_router.py:59-319 | the object, over any calls with devices coming and going, ends in the state of the model's run |
| `DriftLaws.DriftIff` | csp_lib/integration/setpoint_drift_reconciler.py:173-187 | numbers drift if and only if they differ by more than the larger of the absolute and the relative tolerance |
| `DriftLaws.PassRepairs` | csp_lib/integration/setpoint_drift_reconciler.py:116-171 | after a pass without cooldown every tracked, responsive, read point is within tolerance, or the device refused the one attempt made at it, or it may not be written; the table is unchanged |
| `DriftLaws.SecondPassIdle` | csp_lib/integration/setpoint_drift_reconciler.py:116-171 | a second pass rewrites no point the first repaired, and without cooldown only points where the first was refused |
| `DriftLaws.RewritesSpaced` | csp_lib/integration/setpoint_drift_reconciler.py:148-163 | with cooldown two successful rewrites of a point are at least the interval apart, whatever happens in between |
| `DriftMeaning.PassExact` | csp_lib/integration/setpoint_drift_reconciler.py:116-171 | a pass attempts exactly the points whose device responds, whose reading differs by more than the tolerances and whose last rewrite is an interval ago, unless the router may not write them; a point then reads as desired if and only if its attempt was accepted, and all others read as before |
| `DriftMeaning.DiffersIff` | csp_lib/integration/setpoint_drift_reconciler.py:173-187 | numbers differ by more than the absolute tolerance and the relative share of the desired value, anything else by not being equal, a bool being 0 or 1 |
| `DriftReconcilers.SetpointDriftReconciler.Reconcile` | csp_lib/integration/setpoint_drift_reconciler.py:116-171 | a whole pass over devices and points in any order is such a pass, with at most one attempt at each point and none elsewhere; with cooldown every repaired point is timed after the pass began |
| `DriftReconcilers.SetpointDriftReconciler.ReconcileDevice` | csp_lib/integration/setpoint_drift_reconciler.py:132-140 | all tracked points of one responsive device |
| `DriftReconcilers.SetpointDriftReconciler.ReconcilePoint` | csp_lib/integration/setpoint_drift_reconciler.py:140-171 | one point: read, compare, cool down, rewrite, time |
| `DriftReconcilers.SetpointDriftReconciler.Live` | csp_lib/integration/setpoint_drift_reconciler.py:116-171 | the object, over any passes with routing and device changes in between, goes through the passes of the model |

## Left out

- Persistence of the feed-forward table in JSON or MongoDB, and `PowerCompensator.process` with its enable flag and bypasses: plumbing around `compensate`.
- Guards against NaN and infinite measurements, ratios and shares: reals have none.
- Energy accumulation, grid voltage and frequency curves, BMS links and `set_meter` in the microgrid: nothing flows back into the power graph.
- `Codec.EncodeWords`: Float32, Float64, strings and dynamic integers are not modelled.
- `RegisterMap.GatewayRegisterMap.SetValueUnlocked`: the code converts the physical value to a double first, so 64-bit integers beyond 2^53 lose their low bits there; the model computes with reals.
- Raw access past the pipeline (`set_hr_raw`), hooks and the pymodbus data blocks: no property of the register file depends on them.
- `LeaderElection.LeaderElector.HandleDemotion`: the callbacks' own effects are not modelled.
- Liveness of the election: that watching nodes can take over is proved (`WatcherTakesOver`), not that one does; a fenced or resigned node never campaigns again.
- Truncation of an instance id that contains "@" when a follower reads the key.
- `DriftReconcilers.SetpointDriftReconciler.Reconcile`: passes are atomic; a route call interleaved at an await could be overwritten by a stale snapshot.
- Redis publication, circuit breaker, heartbeat generators, orchestrator and GUI: no hard property.
