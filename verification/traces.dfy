/** Runs of the gearbox over scripted environments.

    The environment supplies, for every tick, the period, the masks sampled
    from the sensors and whether the twitch helper reports its stop phase
    complete. The lemmas here follow whole shifts through such scripts.
 */
module Traces {
  import opened Masks
  import opened DelayTimer
  import opened Direction
  import opened GearCode
  import opened Gearshift
  import opened ShiftSafety

  /** What the environment provides to one tick. */
  datatype Step = Step(period: int, readings: Nibbles, twitchDone: bool)

  function TickWith(t: Timing, g: Gearbox, s: Step): Gearbox
  {
    Tick(t, g, s.period, s.readings, s.twitchDone)
  }

  /** The state after running every step in order. */
  function Run(t: Timing, g: Gearbox, steps: seq<Step>): Gearbox
    decreases |steps|
  {
    if |steps| == 0 then g else Run(t, TickWith(t, g, steps[0]), steps[1..])
  }

  /** The backgear motor, reverse and slow pins of a state. */
  function Pins(g: Gearbox): (bool, bool, bool)
  {
    (g.backgear.motorOn, g.reverse, g.slow)
  }

  lemma RunStep(t: Timing, g: Gearbox, s: Step, rest: seq<Step>)
    ensures Run(t, g, [s] + rest) == Run(t, TickWith(t, g, s), rest)
  {
    assert ([s] + rest)[1..] == rest;
  }

  /** A tick that lands while a stage's countdown runs only moves the
      countdown (and stores the sampled masks). */
  lemma ParkedTick(t: Timing, g: Gearbox, id: ShaftId, s: Step)
    requires g.next == SelfOf(id) && s.period > 0 && g.delay > 0
    ensures TickWith(t, g, s) == Refresh(g, s.readings).(delay := g.delay - s.period)
  {
    var g0 := Refresh(g, s.readings);
    assert Wait(g0.delay, s.period).stillWaiting;
    match id
    case InputShaft =>
    case MidrangeShaft =>
    case BackgearShaft =>
  }

  /** A tick that finds an OFF shaft in place hands over to the successor. */
  lemma PassOverTick(t: Timing, g: Gearbox, id: ShaftId, s: Step)
    requires g.next == SelfOf(id) && g.delay <= 0
    requires ShaftOf(g, id).state == Off
    requires ShaftOf(Refresh(g, s.readings), id).current == ShaftOf(g, id).target
    ensures TickWith(t, g, s) == Refresh(g, s.readings).(delay := 0, next := Successor(id))
  {
    var g0 := Refresh(g, s.readings);
    assert !Wait(g0.delay, s.period).stillWaiting;
    match id
    case InputShaft =>
    case MidrangeShaft =>
    case BackgearShaft =>
  }

  /** The invariant holds along every run. */
  lemma {:induction false} RunPreservesInv(t: Timing, g: Gearbox, steps: seq<Step>)
    requires Inv(g)
    ensures Inv(Run(t, g, steps))
    decreases |steps|
  {
    if |steps| > 0 {
      TickPreservesInv(t, g, steps[0].period, steps[0].readings, steps[0].twitchDone);
      RunPreservesInv(t, TickWith(t, g, steps[0]), steps[1..]);
    }
  }

  predicate AllOff(g: Gearbox)
  {
    g.input.state == Off && g.midrange.state == Off && g.backgear.state == Off
  }

  /** When every shaft already reads its target, a shift never switches a
      shaft ON and never asserts a motor, reverse or slow pin. */
  lemma {:induction false} FastPathNeverEnergizes(t: Timing, g: Gearbox, steps: seq<Step>)
    requires Inv(g) && AllOff(g)
    requires forall i :: 0 <= i < |steps| ==> steps[i].readings == Targets(g)
    ensures var r := Run(t, g, steps);
            Inv(r) && AllOff(r) && MotorsOn(r) == 0 && !r.reverse && !r.slow
            && Targets(r) == Targets(g)
    decreases |steps|
  {
    if |steps| == 0 {
      assert !ArmedShaftOn(g);
    } else {
      var s := steps[0];
      var g0 := Refresh(g, s.readings);
      var g1 := TickWith(t, g, s);
      TickPreservesInv(t, g, s.period, s.readings, s.twitchDone);
      assert AllOff(g1) by {
        match g0.next
        case Idle =>
        case Input =>
        case Midrange =>
        case Backgear =>
        case Stop =>
      }
      assert forall i :: 0 <= i < |steps[1..]| ==> steps[1..][i].readings == Targets(g1) by {
        forall i | 0 <= i < |steps[1..]|
          ensures steps[1..][i].readings == Targets(g1)
        {
          assert steps[1..][i] == steps[i + 1];
        }
      }
      FastPathNeverEnergizes(t, g1, steps[1..]);
    }
  }

  /** With a period covering the generic pin interval, a shift to a
      non-neutral gear whose three shafts are already in place reaches the
      stop phase in four ticks (one settle tick, then one tick per stage),
      and goes idle on the fifth once the twitch helper is done. */
  lemma FastPathReachesStop(t: Timing, table: GearTable, g: Gearbox, value: int, p: int)
    requires Inv(g) && g.next == Idle
    requires p >= t.genericPin && value % 16 != table.neutralValue
    ensures var s := Step(p, Split(value), true);
            var g0 := Start(t, table, g, value);
            Run(t, g0, [s, s, s, s]).next == Stop
            && MotorsOn(Run(t, g0, [s, s, s, s])) == 0
            && Run(t, g0, [s, s, s, s, s]).next == Idle
            && !Run(t, g0, [s, s, s, s, s]).startShift
  {
    var s := Step(p, Split(value), true);
    var g0 := Start(t, table, g, value);
    QuietOutsideStages(g);
    ParkedTick(t, g0, InputShaft, s);
    var g1 := TickWith(t, g0, s);
    PassOverTick(t, g1, InputShaft, s);
    var g2 := TickWith(t, g1, s);
    PassOverTick(t, g2, MidrangeShaft, s);
    var g3 := TickWith(t, g2, s);
    PassOverTick(t, g3, BackgearShaft, s);
    var g4 := TickWith(t, g3, s);
    var g5 := TickWith(t, g4, s);
    assert g4.next == Stop && g4.delay == 0;
    assert g5.next == Idle && !g5.startShift;
    RunStep(t, g0, s, [s, s, s, s]);
    RunStep(t, g0, s, [s, s, s]);
    RunStep(t, g1, s, [s, s, s]);
    RunStep(t, g1, s, [s, s]);
    RunStep(t, g2, s, [s, s]);
    RunStep(t, g2, s, [s]);
    RunStep(t, g3, s, [s]);
    RunStep(t, g3, s, []);
    RunStep(t, g4, s, []);
  }

  /** A neutral shift skips the input and midrange stages: with the backgear
      in place it reaches the stop phase in two ticks, whatever the other two
      shafts read. */
  lemma NeutralFastPath(t: Timing, table: GearTable, g: Gearbox, value: int, p: int, other: Nibbles)
    requires Inv(g) && g.next == Idle
    requires p >= t.genericPin && value % 16 == table.neutralValue
    ensures var s := Step(p, other.(backgear := table.neutralValue), true);
            var g0 := Start(t, table, g, value);
            Run(t, g0, [s, s]).next == Stop && MotorsOn(Run(t, g0, [s, s])) == 0
  {
    var s := Step(p, other.(backgear := table.neutralValue), true);
    var g0 := Start(t, table, g, value);
    QuietOutsideStages(g);
    ParkedTick(t, g0, BackgearShaft, s);
    var g1 := TickWith(t, g0, s);
    PassOverTick(t, g1, BackgearShaft, s);
    var g2 := TickWith(t, g1, s);
    RunStep(t, g0, s, [s]);
    RunStep(t, g1, s, []);
  }

  /** The acting ticks of a stage, one lemma per branch of the driver. Each
      starts with the stage armed and its countdown elapsed. */
  predicate Acting(g: Gearbox, id: ShaftId)
  {
    g.next == SelfOf(id) && g.delay <= 0
  }

  /** The mask a step samples for shaft `id`. */
  function Reading(s: Step, id: ShaftId): Nibble
  {
    match id
    case InputShaft => s.readings.input
    case MidrangeShaft => s.readings.midrange
    case BackgearShaft => s.readings.backgear
  }

  lemma ReverseTick(t: Timing, g: Gearbox, id: ShaftId, s: Step)
    requires Acting(g, id) && ShaftOf(g, id).state == Off
    requires Reading(s, id) != ShaftOf(g, id).target
    requires NeedReverse(ShaftOf(g, id).target, Reading(s, id))
    ensures var r := TickWith(t, g, s);
            ShaftOf(r, id) == ShaftOf(g, id).(state := On, current := Reading(s, id))
            && r.reverse && r.slow == g.slow && r.delay == t.reverseMotor && r.next == SelfOf(id)
  {
  }

  lemma SlowTick(t: Timing, g: Gearbox, id: ShaftId, s: Step)
    requires Acting(g, id) && ShaftOf(g, id).state == On
    requires Reading(s, id) != ShaftOf(g, id).target
    requires IsCenter(ShaftOf(g, id).target) && !g.slow
    ensures var r := TickWith(t, g, s);
            ShaftOf(r, id) == ShaftOf(g, id).(current := Reading(s, id))
            && r.reverse == g.reverse && r.slow && r.delay == t.stagePoll && r.next == SelfOf(id)
  {
  }

  lemma MotorTick(t: Timing, g: Gearbox, id: ShaftId, s: Step)
    requires Acting(g, id) && ShaftOf(g, id).state == On
    requires Reading(s, id) != ShaftOf(g, id).target
    requires IsCenter(ShaftOf(g, id).target) ==> g.slow
    ensures var r := TickWith(t, g, s);
            ShaftOf(r, id) == ShaftOf(g, id).(current := Reading(s, id), motorOn := true)
            && r.reverse == g.reverse && r.slow == g.slow && r.delay == t.stagePoll
            && r.next == SelfOf(id)
  {
  }

  lemma MotorOffTick(t: Timing, g: Gearbox, id: ShaftId, s: Step)
    requires Acting(g, id) && ShaftOf(g, id).state == On
    requires Reading(s, id) == ShaftOf(g, id).target
    requires ShaftOf(g, id).motorOn && g.reverse
    ensures var r := TickWith(t, g, s);
            ShaftOf(r, id) == ShaftOf(g, id).(current := Reading(s, id), motorOn := false)
            && r.reverse && r.slow == g.slow && r.delay == t.genericPin && r.next == SelfOf(id)
  {
  }

  lemma ReleaseTick(t: Timing, g: Gearbox, id: ShaftId, s: Step)
    requires Acting(g, id) && ShaftOf(g, id).state == On
    requires Reading(s, id) == ShaftOf(g, id).target
    requires !ShaftOf(g, id).motorOn
    ensures var r := TickWith(t, g, s);
            ShaftOf(r, id) == ShaftOf(g, id).(current := Reading(s, id), state := Off)
            && !r.reverse && !r.slow && r.delay == t.genericPin && r.next == Successor(id)
  {
  }

  /** A backgear shift from the left position (mask 1) to the center
      position (mask 4), with a period covering every interval; odd ticks
      act, even ticks wait. Reverse comes first (center is approached
      counter-clockwise while left-center is low), then slow, and only then
      the motor. At the target the motor is released first, reverse one
      settle later together with slow, and the stage hands over to the stop
      phase. */
  lemma CenterApproachTrace(t: Timing, g: Gearbox, p: int, rest: Nibbles)
    requires g.next == Backgear && g.delay <= 0
    requires g.backgear.state == Off && g.backgear.target == 4 && !g.backgear.motorOn
    requires !g.reverse && !g.slow
    requires p >= t.genericPin && p >= t.reverseMotor && p >= t.stagePoll
    ensures var a := Step(p, rest.(backgear := 1), true);
            var h := Step(p, rest.(backgear := 4), true);
            var g1 := TickWith(t, g, a);  var g2 := TickWith(t, g1, a);
            var g3 := TickWith(t, g2, a); var g4 := TickWith(t, g3, a);
            var g5 := TickWith(t, g4, a); var g6 := TickWith(t, g5, a);
            var g7 := TickWith(t, g6, h); var g8 := TickWith(t, g7, h);
            var g9 := TickWith(t, g8, h);
            [Pins(g1), Pins(g2), Pins(g3), Pins(g4), Pins(g5), Pins(g6), Pins(g7), Pins(g8), Pins(g9)] ==
              [ (false, true, false), (false, true, false)
              , (false, true, true),  (false, true, true)
              , (true, true, true),   (true, true, true)
              , (false, true, true),  (false, true, true)
              , (false, false, false) ]
            && g9.next == Stop && g9.backgear.state == Off
  {
    var a := Step(p, rest.(backgear := 1), true);
    var h := Step(p, rest.(backgear := 4), true);
    var id := BackgearShaft;
    ReverseTick(t, g, id, a);
    var g1 := TickWith(t, g, a);
    ParkedTick(t, g1, id, a);
    var g2 := TickWith(t, g1, a);
    SlowTick(t, g2, id, a);
    var g3 := TickWith(t, g2, a);
    ParkedTick(t, g3, id, a);
    var g4 := TickWith(t, g3, a);
    MotorTick(t, g4, id, a);
    var g5 := TickWith(t, g4, a);
    ParkedTick(t, g5, id, a);
    var g6 := TickWith(t, g5, a);
    MotorOffTick(t, g6, id, h);
    var g7 := TickWith(t, g6, h);
    ParkedTick(t, g7, id, h);
    var g8 := TickWith(t, g7, h);
    ReleaseTick(t, g8, id, h);
    var g9 := TickWith(t, g8, h);
  }

  /** Once idle, ticks only store sensor readings. */
  lemma {:induction false} RunFromIdle(t: Timing, g: Gearbox, steps: seq<Step>)
    requires g.next == Idle
    ensures Run(t, g, steps).next == Idle && SpindleUntouched(g, Run(t, g, steps))
    decreases |steps|
  {
    if |steps| > 0 {
      RunFromIdle(t, TickWith(t, g, steps[0]), steps[1..]);
    }
  }

  /** During a shift the interlock and the spindle request stay as they were
      set; when the stop phase completes, the interlock drops and the spindle
      request is withdrawn exactly when the spindle ran before the shift. */
  lemma {:induction false} RunKeepsSpindleUntilIdle(t: Timing, g: Gearbox, steps: seq<Step>)
    requires g.next != Idle
    ensures var r := Run(t, g, steps);
            (r.next != Idle ==> SpindleUntouched(g, r))
            && (r.next == Idle ==>
                  !r.startShift && !r.spindleOnBeforeShift
                  && (r.stopSpindle <==> g.stopSpindle && !g.spindleOnBeforeShift))
    decreases |steps|
  {
    if |steps| > 0 {
      var g1 := TickWith(t, g, steps[0]);
      if g1.next == Idle {
        RunFromIdle(t, g1, steps[1..]);
      } else {
        RunKeepsSpindleUntilIdle(t, g1, steps[1..]);
      }
    }
  }

  /** A spindle that was running when the shift stopped it is released at the
      end: the stop request goes from false to true for the whole shift and
      back to false once the cascade is idle again. */
  lemma SpindleRoundTrip(t: Timing, table: GearTable, g: Gearbox, value: int, steps: seq<Step>)
    requires g.next == Idle && !g.stopSpindle
    ensures var g1 := Start(t, table, StopSpindle(g, false), value);
            var r := Run(t, g1, steps);
            g1.stopSpindle && g1.startShift
            && (r.next != Idle ==> r.stopSpindle && r.startShift)
            && (r.next == Idle ==> !r.stopSpindle && !r.startShift)
  {
    var g1 := Start(t, table, StopSpindle(g, false), value);
    RunKeepsSpindleUntilIdle(t, g1, steps);
  }

  /** A spindle that was already stopped stays requested stopped after the
      shift. */
  lemma SpindleStaysStopped(t: Timing, table: GearTable, g: Gearbox, value: int, steps: seq<Step>)
    requires g.next == Idle
    ensures var r := Run(t, Start(t, table, StopSpindle(g, true), value), steps);
            r.stopSpindle && (r.next == Idle ==> !r.startShift)
  {
    RunKeepsSpindleUntilIdle(t, Start(t, table, StopSpindle(g, true), value), steps);
  }

  /** Once every shaft reads the target a shift set, the resolver reports
      the gear that was asked for: neutral for a neutral backgear nibble,
      otherwise the gear the table files under the value's 12-bit code. */
  lemma ArrivedGearResolves(t: Timing, table: GearTable, g: Gearbox, value: int)
    ensures var r := Refresh(Start(t, table, g, value), Split(value));
            Resolve(table, r) ==
              if value % 16 == table.neutralValue then Some(table.neutralIndex)
              else if value % 4096 in table.search then Some(table.search[value % 4096])
              else None
  {
  }
}
