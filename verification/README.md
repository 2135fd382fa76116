# MH400E gearbox shift controller — Dafny model

A model of the gear-shift state machine of the LinuxCNC component that drives
the gearbox of a MAHO MH400E milling machine. The host real-time loop calls
the component once per tick. A shift moves three shafts to a target gear:
input stage, then midrange, then backgear. Each shaft has four position
sensors, read as a 4-bit mask (left, right, center, left-center). The shafts
are moved by a motor-enable output per shaft and by motor-reverse and
motor-lowspeed outputs that all three shafts share. While the shift runs, a
"shift in progress" interlock is raised and the spindle is held stopped.

The model is functional. The whole gearbox is one immutable record
(`Gearshift.Gearbox`). The C function pointer `next` is the enumeration
`Idle | Input | Midrange | Backgear | Stop`. One tick is the pure function
`Gearshift.Tick(timing, state, period, readings, twitchDone)`. The masks the
sensors show and the twitch helper's completion flag come from the
environment; the machine never writes the current masks.

Modules, one per component:

- `Masks` (masks.dfy): the 4-bit mask, the bit tests and the pin-group sampler.
- `DelayTimer` (delay_timer.dfy): the countdown that every stage shares.
- `Direction` (direction.dfy): the motor direction policy.
- `GearCode` (gear_code.dfy): the 12-bit gear code and the gear resolver.
- `Gearshift` (gearbox.dfy): the gearbox record, setup, the stage driver,
  the stop phase, dispatch, start and the spindle capture.
- `ShiftSafety` (shift_safety.dfy): an invariant kept by every tick. It
  gives mutual exclusion of the shaft motors and the order in which outputs
  are raised and released.
- `Traces` (traces.dfy): whole shifts over scripted sensor traces.

Assumptions about names defined in `mh400e_gears.h`, which is not part of
this model:

- `MH400E_STAGE_IS_LEFT/RIGHT/CENTER/LEFT_CENTER` are taken to be tests of
  bits 0/1/2/3. This follows the pin order of the pin groups.
- The timing constants are arbitrary positive integers (`Gearshift.Timing`).
- `MH400E_PINS_IN_GROUP` is 4.
- The neutral gear's value is taken to be below 16, so it is a backgear
  nibble.

Behaviour of the code that the model keeps as written, where a reader might expect otherwise:

- In the ON branch at the target, the code clears the lowspeed output
  (mh400e_gears.c:331) and only then tests it (mh400e_gears.c:334). The
  "settle after releasing slow" step described for this branch therefore
  never happens: slow is released in the same tick that completes the
  stage. The model keeps the dead test. `Gearshift.StageArrived` states
  that the stage re-arms itself exactly when the motor was on and reverse
  was up, so the slow test never fires.
- The delay timer waits only when both the countdown and the period are
  positive. A zero or negative period resets the countdown to 0 at once.
- The resolver reads the masks that the last sample stored. The sampling is
  the separate step `Gearshift.UpdateMasks` (the sampler loop `Masks.GetBitmask` per shaft, equal to `Gearshift.Refresh` of `Gearshift.Sample`). Placing it at the start of every tick is this model's choice, since the caller of the mask update is not part of this model.
- The code compares the backgear mask with the neutral entry's whole value,
  not with a nibble of it. Under the assumption above these are the same.

## Model

| member | source | states |
|---|---|---|
| Masks.GetBitmask | mh400e_gears.c:174-183 | bit i of the mask the loop folds is pin i, for each of the four pins in group order; the mask read back gives the pin group, and it is the mask `PackPins` defines |
| Masks.PackPins | mh400e_gears.c:85-91 | each of the four pins (left, right, center, left-center) sets exactly its own bit of the mask |
| Masks.UnpackPack | mh400e_gears.c:174-183 | packing pins into a mask loses nothing: unpacking gives back the same pins |
| Masks.PackUnpack | mh400e_gears.c:174-183 | every 4-bit value is the mask of the pins it reads back as (with `Masks.UnpackPack`, masks and pin patterns correspond one to one) |
| DelayTimer.Wait | mh400e_gears.c:220-229 | reports "still waiting" exactly when period and countdown are both positive, and then lowers the countdown by exactly one period; otherwise the countdown becomes 0 |
| DelayTimer.WaitWithoutTime | mh400e_gears.c:222-228 | a zero period never waits and always zeroes the countdown |
| DelayTimer.WaitBounds | mh400e_gears.c:222-226 | while waiting, the countdown drops strictly and stays above minus one period |
| DelayTimer.WaitElapsedIsStable | mh400e_gears.c:227-228 | once a wait reports elapsed, later waits report elapsed too, whatever the period |
| DelayTimer.PollsIsCeiling | mh400e_gears.c:220-229 | with a constant positive period, a stage armed with delay d is held back for the least number n of ticks with n * period >= d |
| DelayTimer.OnePollWhenPeriodCoversDelay | mh400e_gears.c:220-229 | a period at least as long as the armed delay costs exactly one waiting tick |
| Direction.NeedReverse | mh400e_gears.c:248-268 | priority table: a right target gives forward; otherwise a left target gives reverse; otherwise a center target gives reverse unless left-center reads high; any other target gives forward |
| Direction.NeedReverseTable | mh400e_gears.c:248-268 | the same policy as a closed rule over all 16x16 masks: reverse exactly for targets 1, 5, 9, 13, and for targets 4 and 12 while the current mask is below 8 |
| Direction.NeedReverseReadsOnlyLeftCenter | mh400e_gears.c:259-264 | the current mask matters only through its left-center bit |
| GearCode.Combine | mh400e_gears.c:201-203 | the combined code is below 4096, and its low, middle and high nibbles are the backgear, midrange and input masks |
| GearCode.Split | mh400e_gears.c:434-437 | the three nibbles taken from a gear value recombine to the value's low 12 bits |
| GearCode.CombineSplit | mh400e_gears.c:434-437 | splitting a combined code gives back the three masks it was built from |
| GearCode.CurrentGear | mh400e_gears.c:199-217 | neutral whenever the backgear mask equals the neutral value; otherwise the search result for the combined code, or none when the search finds nothing |
| GearCode.NeutralIgnoresUpperShafts | mh400e_gears.c:205-209 | for neutral, the input and midrange masks are don't-cares |
| GearCode.DistinctReadingsDistinctCodes | mh400e_gears.c:201-203 | different mask triples never share a combined code |
| Gearshift.Init | mh400e_gears.c:60-164 | after setup every shaft is OFF with mask 0 and motor off, the backgear targets the gear table's neutral value, no output is raised, the countdown is 0 and nothing is armed |
| Gearshift.Sample | mh400e_gears.c:186-194 | each shaft's new mask reads back as exactly that shaft's pins |
| Gearshift.Refresh | mh400e_gears.c:186-194 | storing sampled masks changes the current masks and nothing else |
| Gearshift.UpdateMasks | mh400e_gears.c:186-194 | running the sampler loop on each shaft's pins stores masks that read back as exactly those pins, and gives the gearbox that `Refresh` builds from `Sample` (the gearbox a tick starts from) |
| Gearshift.StopSpindle | mh400e_gears.c:166-171 | raises the spindle-stop request and records "was running" as the negation of "is stopped"; nothing else changes |
| Gearshift.Start | mh400e_gears.c:432-457 | the targets are the value's three nibbles and recombine to its low 12 bits; interlock up; countdown = generic pin interval; arms backgear exactly when the backgear nibble is the gear table's neutral value and the input stage otherwise; shafts and outputs are untouched |
| Gearshift.StageOff | mh400e_gears.c:282-302 | a shaft already in place hands over to its successor and nothing else changes; otherwise it turns ON and re-arms itself; reverse is raised, with the reverse settle delay, exactly when the direction policy asks for it; the motor is never touched |
| Gearshift.StageArrived | mh400e_gears.c:306-345 | the motor always ends off; the stage re-arms itself exactly when the motor was on and reverse was up, and then reverse stays up; otherwise it completes: shaft OFF, reverse and slow down, generic delay, successor armed |
| Gearshift.StageApproach | mh400e_gears.c:346-362 | a center target with slow down raises slow and leaves the motor alone; otherwise the motor ends on; in both cases the poll delay is armed and the stage re-arms itself |
| Gearshift.SelfOf | mh400e_gears.c:395-411 | each shaft's stage is a real stage, never the stop phase or NULL |
| Gearshift.Successor | mh400e_gears.c:395-411 | the stage after a shaft's is never NULL and never the shaft's own; it is the stop phase exactly for the backgear |
| Gearshift.CascadeWiring | mh400e_gears.c:395-411 | the cascade runs input stage, midrange, backgear, stop, and no two shafts share a stage |
| Gearshift.Stage | mh400e_gears.c:273-364 | a parked tick changes only the countdown; an OFF shaft hands over exactly when it reads its target; every hand-over leaves the shaft OFF at its target; a completion from ON releases every output; the motor is enabled only short of the target and, for a center target, only once slow is up; reverse is raised only on leaving OFF and released only with the motor off; slow is released only on completion; other shafts are untouched |
| Gearshift.StopPhase | mh400e_gears.c:366-393 | goes idle exactly when the wait has elapsed and the twitch stop reports completion; then the interlock drops, "was running" is cleared, and the spindle request is withdrawn only if the spindle was running before; until then the spindle fields are untouched; a parked tick only lowers the countdown by the period, a twitch-incomplete tick re-arms the twitch delay, and completion leaves the countdown 0; no shaft or motor output changes |
| Gearshift.Handle | mh400e_gears.c:416-429 | with nothing armed the state is unchanged; the masks are never written; only the stop phase can make the cascade idle |
| Gearshift.Tick | mh400e_gears.c:416-429 | after a tick the current masks are the readings and the targets are unchanged; an idle gearbox only stores the readings |
| Gearshift.Resolve | mh400e_gears.c:199-217 | resolves the stored masks: neutral when the backgear reads neutral, otherwise a gear is found exactly when the combined code is in the search, and it is the search's entry for that code |
| ShiftSafety.InitEstablishesInv | mh400e_gears.c:60-164 | setup satisfies the cascade invariant |
| ShiftSafety.AtMostOneMotor | mh400e_gears.c:395-411 | under the invariant at most one shaft motor is enabled, and only the one whose stage is armed |
| ShiftSafety.QuietOutsideStages | mh400e_gears.c:366-393 | when idle or in the stop phase, every shaft is OFF and no motor, reverse or slow output is raised |
| ShiftSafety.StagePreservesInv | mh400e_gears.c:273-364 | one stage tick keeps the invariant |
| ShiftSafety.TickPreservesInv | mh400e_gears.c:416-429 | every tick keeps the invariant, whatever the period, readings and twitch state |
| ShiftSafety.StartFromIdlePreservesInv | mh400e_gears.c:432-457 | a shift started while idle keeps the invariant |
| ShiftSafety.StopSpindlePreservesInv | mh400e_gears.c:166-171 | capturing the spindle state keeps the invariant |
| ShiftSafety.RestartMidShiftStrandsMotor | mh400e_gears.c:432-457 | for a shaft still ON with its motor running, a start whose first stage (backgear for a neutral nibble, otherwise input) is another shaft's arms that other stage, leaves the motor running, unowned, and breaks the invariant |
| ShiftSafety.RestartSameStageKeepsInv | mh400e_gears.c:432-457 | a start that re-arms the stage that was running keeps the invariant |
| ShiftSafety.RestartStrandsMidrangeMotor | mh400e_gears.c:432-457 | one concrete start while the midrange motor runs leaves it running with the input stage armed |
| ShiftSafety.SlowBeforeMotor | mh400e_gears.c:349-358 | for a center target the motor is enabled only on a tick where slow was already up from an earlier tick |
| ShiftSafety.StageReleaseOrder | mh400e_gears.c:306-345 | one stage tick of the armed shaft drops reverse only with every motor already off, and drops slow only with reverse down and every motor off |
| ShiftSafety.ReleaseOrder | mh400e_gears.c:306-345 | reverse is released only on a tick that starts with every motor off; slow is released only when reverse ends down and every motor is off |
| Traces.RunPreservesInv | mh400e_gears.c:416-429 | the invariant holds after any sequence of ticks |
| Traces.ParkedTick | mh400e_gears.c:276-280 | a tick that finds a stage's countdown running only lowers the countdown |
| Traces.PassOverTick | mh400e_gears.c:286-289 | an elapsed OFF shaft that reads its target hands over to its successor |
| Traces.ReverseTick | mh400e_gears.c:290-301 | leaving OFF when the policy asks for reverse turns the shaft ON, raises reverse and arms the reverse settle delay |
| Traces.SlowTick | mh400e_gears.c:349-353 | an ON shaft short of a center target with slow down raises slow only |
| Traces.MotorTick | mh400e_gears.c:354-358 | an ON shaft short of its target, with slow up if the target is center, gets its motor enabled |
| Traces.MotorOffTick | mh400e_gears.c:308-328 | at the target with motor on and reverse up, the motor is released and the stage settles with reverse still up |
| Traces.ReleaseTick | mh400e_gears.c:313-345 | at the target with the motor already off, reverse and slow drop and the stage completes |
| Traces.FastPathNeverEnergizes | mh400e_gears.c:282-289 | if every shaft always reads its target, no shaft turns ON and no motor, reverse or slow output is raised, for any sequence of ticks |
| Traces.FastPathReachesStop | mh400e_gears.c:395-411 | a non-neutral shift with every shaft in place reaches the stop phase after four ticks and goes idle on the fifth, with no motor enabled |
| Traces.NeutralFastPath | mh400e_gears.c:447-452 | a neutral shift with the backgear in place reaches the stop phase in two ticks, whatever the other shafts read |
| Traces.CenterApproachTrace | mh400e_gears.c:273-364 | scripted backgear shift from left to center: outputs go reverse, then slow, then motor; at the target the motor drops first, then reverse and slow together; the stage then hands over to stop |
| Traces.RunFromIdle | mh400e_gears.c:420-426 | once idle, ticks leave the cascade idle and the spindle fields unchanged |
| Traces.RunKeepsSpindleUntilIdle | mh400e_gears.c:366-393 | during a shift the interlock and spindle fields are unchanged; at the return to idle the interlock is down and the spindle request is withdrawn exactly when the spindle ran before |
| Traces.SpindleRoundTrip | mh400e_gears.c:166-171 | a running spindle's stop request goes false, then true for the whole shift, then false once idle again |
| Traces.SpindleStaysStopped | mh400e_gears.c:388-392 | a spindle that was already stopped keeps its stop request after the shift |
| Traces.ArrivedGearResolves | mh400e_gears.c:199-217 | once every shaft reads the target that start set, the resolver reports neutral for a neutral nibble and otherwise the table's gear for the value's 12-bit code |

## Left out

- HAL pin wiring and the macro workarounds in `gearbox_setup`: only the initial field values are modelled. The output pins are taken to start low.
- `twitch_start`, `twitch_stop` and `twitch_handle` live in another file. They are treated as no-ops here. `twitch_stop_completed` is the environment flag `twitchDone`.
- `tree_search` and the `mh400e_gears[]` table are not part of this model. The table is an abstract map from a 12-bit code to a gear index, plus the neutral entry's index and value.
- Logging with `rtapi_print_msg`, and the E-STOP that is only a TODO: with nothing armed, a tick changes no state.
- The mid-shift cleanup TODO (mh400e_gears.c:383-384) is a known gap and is not added. `ShiftSafety.RestartMidShiftStrandsMotor` and `ShiftSafety.RestartSameStageKeepsInv` state what a restart in mid-shift leaves behind.
- Who calls `gearshift_stop_spindle`, `gearshift_start` and the mask update, and in which order: the component's main function is not part of this model. The traces call the spindle stop before the start, and sample masks at the start of every tick.
- The real values of the timing constants and any wall-clock meaning of the period.
- Liveness: a sensor that never reports the target keeps a stage polling forever. No lemma claims that a shift terminates under arbitrary sensor readings.
- 64-bit `long` arithmetic of the countdown: integers are unbounded. Subtracting a period from a positive countdown cannot overflow for any realistic period.
- `unsigned char` masks: every mask the code builds or stores is below 16, so masks are modelled as 4-bit values.
