/** The gear-shift state machine of the MH400E gearbox component.

    The component keeps one record for the whole gearbox: three shafts
    (input stage, midrange, backgear), the outputs they drive, the spindle
    interlock, the shared countdown and the continuation `next` that the host
    loop runs on every tick. The continuation is a function pointer in the
    component; here it is the enumeration `Continuation`.

    The motor-reverse and motor-slow outputs are one pair of pins wired to all
    three shafts; only the motor-enable output belongs to a single shaft. The
    current masks are written by the sampler from the sensor pins before a
    tick is handled; no stage ever writes them.
 */
module Gearshift {
  import opened Masks
  import opened DelayTimer
  import opened Direction
  import opened GearCode

  /** A positive timing constant, in the unit of the tick period. */
  type Interval = x: int | x > 0 witness 1

  /** MH400E_GENERIC_PIN_INTERVAL, MH400E_REVERSE_MOTOR_INTERVAL,
      MH400E_GEAR_STAGE_POLL_INTERVAL and MH400E_TWITCH_KEEP_PIN_OFF. Their
      values are fixed at compile time; the model only relies on them being
      positive. */
  datatype Timing = Timing(genericPin: Interval, reverseMotor: Interval,
                           stagePoll: Interval, twitchKeepPinOff: Interval)

  datatype ShaftState = Off | On

  /** One shaft: its driver state, sensed and wanted masks, and its own
      motor-enable output. */
  datatype Shaft = Shaft(state: ShaftState, current: Nibble, target: Nibble, motorOn: bool)

  datatype ShaftId = InputShaft | MidrangeShaft | BackgearShaft

  /** The step the next tick runs; `Idle` is the NULL pointer. */
  datatype Continuation = Idle | Input | Midrange | Backgear | Stop

  /** The whole gearbox record. */
  datatype Gearbox = Gearbox(
    input: Shaft,
    midrange: Shaft,
    backgear: Shaft,
    reverse: bool,               // shared motor-reverse output
    slow: bool,                  // shared motor-lowspeed output
    startShift: bool,            // "shift in progress" interlock output
    stopSpindle: bool,           // spindle-stop request output
    spindleOnBeforeShift: bool,  // spindle state captured when it was stopped
    delay: int,                  // shared countdown
    next: Continuation)

  /** The four sensor pins of every shaft. */
  datatype Sensors = Sensors(input: PinGroup, midrange: PinGroup, backgear: PinGroup)

  function ShaftOf(g: Gearbox, id: ShaftId): Shaft
  {
    match id
    case InputShaft => g.input
    case MidrangeShaft => g.midrange
    case BackgearShaft => g.backgear
  }

  function WithShaft(g: Gearbox, id: ShaftId, s: Shaft): (r: Gearbox)
    ensures ShaftOf(r, id) == s
    ensures forall o :: o != id ==> ShaftOf(r, o) == ShaftOf(g, o)
    ensures r.(input := g.input, midrange := g.midrange, backgear := g.backgear) == g
  {
    match id
    case InputShaft => g.(input := s)
    case MidrangeShaft => g.(midrange := s)
    case BackgearShaft => g.(backgear := s)
  }

  /** The continuation that runs the stage of shaft `id` (its "me"). */
  function SelfOf(id: ShaftId): (c: Continuation)
    ensures c != Idle && c != Stop
  {
    match id
    case InputShaft => Input
    case MidrangeShaft => Midrange
    case BackgearShaft => Backgear
  }

  /** The cascade: input stage, then midrange, then backgear, then stop. */
  function Successor(id: ShaftId): (c: Continuation)
    ensures c != Idle && c != SelfOf(id)
    ensures c == Stop <==> id == BackgearShaft
  {
    match id
    case InputShaft => Midrange
    case MidrangeShaft => Backgear
    case BackgearShaft => Stop
  }

  /** The wiring of gearshift_input_stage, gearshift_midrange and
      gearshift_backgear: each stage names itself as "me" and the next one
      as "next", so the cascade runs input, midrange, backgear, stop, and no
      two shafts share a stage. */
  lemma CascadeWiring()
    ensures Successor(InputShaft) == SelfOf(MidrangeShaft)
    ensures Successor(MidrangeShaft) == SelfOf(BackgearShaft)
    ensures Successor(BackgearShaft) == Stop
    ensures forall a: ShaftId, b: ShaftId :: SelfOf(a) == SelfOf(b) ==> a == b
  {
  }

  function Currents(g: Gearbox): Nibbles
  {
    Nibbles(g.input.current, g.midrange.current, g.backgear.current)
  }

  function Targets(g: Gearbox): Nibbles
  {
    Nibbles(g.input.target, g.midrange.target, g.backgear.target)
  }

  /** The interlock, the spindle-stop request and the captured spindle
      state are as they were. */
  predicate SpindleUntouched(g: Gearbox, r: Gearbox)
  {
    r.startShift == g.startShift && r.stopSpindle == g.stopSpindle
    && r.spindleOnBeforeShift == g.spindleOnBeforeShift
  }

  /** No shaft's masks moved. */
  predicate MasksUntouched(g: Gearbox, r: Gearbox)
  {
    Currents(r) == Currents(g) && Targets(r) == Targets(g)
  }

  /** The state gearbox_setup leaves behind: every shaft OFF with a zero
      reading, the backgear aimed at neutral, no output asserted, no wait
      pending and no continuation armed. */
  function Init(table: GearTable): (g: Gearbox)
    ensures forall id :: ShaftOf(g, id).state == Off && !ShaftOf(g, id).motorOn
    ensures Currents(g) == Nibbles(0, 0, 0)
    ensures Targets(g) == Nibbles(0, 0, table.neutralValue)
    ensures !g.reverse && !g.slow && !g.startShift && !g.stopSpindle && !g.spindleOnBeforeShift
    ensures g.delay == 0 && g.next == Idle
  {
    Gearbox(
      Shaft(Off, 0, 0, false),
      Shaft(Off, 0, 0, false),
      Shaft(Off, 0, table.neutralValue, false),
      false, false, false, false, false,
      0, Idle)
  }

  /** update_current_pingroup_masks: fold each shaft's pins into its mask. */
  function Sample(s: Sensors): (n: Nibbles)
    ensures UnpackPins(n.input) == s.input
    ensures UnpackPins(n.midrange) == s.midrange
    ensures UnpackPins(n.backgear) == s.backgear
  {
    UnpackPack(s.input);
    UnpackPack(s.midrange);
    UnpackPack(s.backgear);
    Nibbles(PackPins(s.input), PackPins(s.midrange), PackPins(s.backgear))
  }

  /** Store freshly sampled masks; only the current masks change. */
  function Refresh(g: Gearbox, readings: Nibbles): (r: Gearbox)
    ensures Currents(r) == readings && Targets(r) == Targets(g)
    ensures forall id :: ShaftOf(r, id) == ShaftOf(g, id).(current := ShaftOf(r, id).current)
    ensures r.(input := g.input, midrange := g.midrange, backgear := g.backgear) == g
  {
    g.(input := g.input.(current := readings.input),
       midrange := g.midrange.(current := readings.midrange),
       backgear := g.backgear.(current := readings.backgear))
  }

  /** gearshift_stop_spindle: remember whether the spindle was running and
      request it to stop. */
  function StopSpindle(g: Gearbox, spindleStopped: bool): (r: Gearbox)
    ensures r.stopSpindle
    ensures r.spindleOnBeforeShift <==> !spindleStopped
    ensures r.(stopSpindle := g.stopSpindle, spindleOnBeforeShift := g.spindleOnBeforeShift) == g
  {
    g.(spindleOnBeforeShift := !spindleStopped, stopSpindle := true)
  }

  /** gearshift_start: aim the three shafts at the gear's nibbles, raise the
      interlock, wait one generic pin interval, and arm the first stage. A
      neutral target only concerns the backgear, so the cascade starts there. */
  function Start(t: Timing, table: GearTable, g: Gearbox, value: int): (r: Gearbox)
    ensures Targets(r) == Split(value)
    ensures Combine(Targets(r)) == value % 4096
    ensures r.startShift && r.delay == t.genericPin
    ensures r.next == Backgear <==> value % 16 == table.neutralValue
    ensures r.next == Input <==> value % 16 != table.neutralValue
    ensures Currents(r) == Currents(g)
    ensures forall id :: ShaftOf(r, id) == ShaftOf(g, id).(target := ShaftOf(r, id).target)
    ensures r.reverse == g.reverse && r.slow == g.slow
    ensures r.stopSpindle == g.stopSpindle && r.spindleOnBeforeShift == g.spindleOnBeforeShift
  {
    var n := Split(value);
    g.(input := g.input.(target := n.input),
       midrange := g.midrange.(target := n.midrange),
       backgear := g.backgear.(target := n.backgear),
       delay := t.genericPin,
       startShift := true,
       next := if n.backgear == table.neutralValue then Backgear else Input)
  }

  /** The OFF branch of gearshift_stage, after the countdown has elapsed:
      pass over a shaft already in place, otherwise switch it ON, raising
      reverse (and letting it settle) when the direction policy asks for it. */
  function StageOff(t: Timing, g: Gearbox, id: ShaftId): (r: Gearbox)
    requires ShaftOf(g, id).state == Off
    ensures SpindleUntouched(g, r) && MasksUntouched(g, r) && r.slow == g.slow
    ensures forall o :: o != id ==> ShaftOf(r, o) == ShaftOf(g, o)
    ensures ShaftOf(r, id).motorOn == ShaftOf(g, id).motorOn
    ensures var s := ShaftOf(g, id);
      s.current == s.target ==> r == g.(next := Successor(id))
    ensures var s := ShaftOf(g, id);
      s.current != s.target ==>
        ShaftOf(r, id).state == On && r.next == SelfOf(id)
        && (r.reverse <==> g.reverse || NeedReverse(s.target, s.current))
        && r.delay == if NeedReverse(s.target, s.current) then t.reverseMotor else g.delay
  {
    var s := ShaftOf(g, id);
    if s.current == s.target then
      g.(next := Successor(id))
    else
      var on := WithShaft(g, id, s.(state := On)).(next := SelfOf(id));
      if NeedReverse(s.target, s.current) then on.(reverse := true, delay := t.reverseMotor)
      else on
  }

  /** The ON branch of gearshift_stage once the sensors confirm the target:
      the first entry releases the motor; an entry with the motor already off
      releases reverse; while reverse is still up the stage settles and comes
      back; otherwise slow is released and the stage completes. */
  function StageArrived(t: Timing, g: Gearbox, id: ShaftId): (r: Gearbox)
    requires ShaftOf(g, id).state == On
    ensures SpindleUntouched(g, r) && MasksUntouched(g, r)
    ensures forall o :: o != id ==> ShaftOf(r, o) == ShaftOf(g, o)
    ensures !ShaftOf(r, id).motorOn && r.delay == t.genericPin
    ensures r.next == SelfOf(id) <==> ShaftOf(g, id).motorOn && g.reverse
    ensures r.next == SelfOf(id) ==> r.reverse && r.slow == g.slow && ShaftOf(r, id).state == On
    ensures r.next != SelfOf(id) ==>
      r.next == Successor(id) && ShaftOf(r, id).state == Off && !r.reverse && !r.slow
    ensures ShaftOf(g, id).motorOn ==> r.reverse == g.reverse
  {
    var s := ShaftOf(g, id);
    var reverse := if s.motorOn then g.reverse else false;
    var s1 := s.(motorOn := false);
    if reverse then
      WithShaft(g, id, s1).(reverse := reverse, delay := t.genericPin, next := SelfOf(id))
    else
      // slow is cleared here and only then checked, so its settle branch is dead
      var slow := false;
      if slow then
        WithShaft(g, id, s1).(reverse := reverse, slow := slow, delay := t.genericPin, next := SelfOf(id))
      else
        WithShaft(g, id, s1.(state := Off)).(reverse := reverse, slow := slow,
                                             delay := t.genericPin, next := Successor(id))
  }

  /** The ON branch of gearshift_stage while the target is not reached yet:
      for a center target raise slow first, instead of the motor; otherwise
      enable the motor if it is off; then poll again. */
  function StageApproach(t: Timing, g: Gearbox, id: ShaftId): (r: Gearbox)
    ensures SpindleUntouched(g, r) && MasksUntouched(g, r) && r.reverse == g.reverse
    ensures forall o :: o != id ==> ShaftOf(r, o) == ShaftOf(g, o)
    ensures ShaftOf(r, id).state == ShaftOf(g, id).state
    ensures r.next == SelfOf(id) && r.delay == t.stagePoll
    ensures IsCenter(ShaftOf(g, id).target) ==> r.slow
    ensures IsCenter(ShaftOf(g, id).target) && !g.slow ==>
      ShaftOf(r, id).motorOn == ShaftOf(g, id).motorOn
    ensures !(IsCenter(ShaftOf(g, id).target) && !g.slow) ==> ShaftOf(r, id).motorOn && r.slow == g.slow
  {
    var s := ShaftOf(g, id);
    if IsCenter(s.target) && !g.slow then
      g.(slow := true, delay := t.stagePoll, next := SelfOf(id))
    else
      WithShaft(g, id, s.(motorOn := true)).(delay := t.stagePoll, next := SelfOf(id))
  }

  /** gearshift_stage: one tick of the driver of shaft `id`: wait out the
      countdown, then run the OFF or ON branch. */
  function Stage(t: Timing, g: Gearbox, id: ShaftId, period: int): (r: Gearbox)
    ensures SpindleUntouched(g, r) && MasksUntouched(g, r)
    ensures forall o :: o != id ==> ShaftOf(r, o) == ShaftOf(g, o)
    ensures r.next == SelfOf(id) || r.next == Successor(id)
    // the stage re-arms itself with its shaft OFF only while parked
    ensures r.next == SelfOf(id) && !Wait(g.delay, period).stillWaiting ==> ShaftOf(r, id).state == On
    // parked: only the countdown moves
    ensures Wait(g.delay, period).stillWaiting ==>
      r == g.(delay := g.delay - period, next := SelfOf(id))
    // hand-over happens only with the shaft settled at its target
    ensures r.next == Successor(id) ==>
      ShaftOf(r, id).state == Off && ShaftOf(g, id).current == ShaftOf(g, id).target
    // an OFF shaft is passed over exactly when it is already in place, and
    // then nothing but the cascade moves
    ensures ShaftOf(g, id).state == Off && !Wait(g.delay, period).stillWaiting ==>
      (r.next == Successor(id) <==> ShaftOf(g, id).current == ShaftOf(g, id).target)
    ensures ShaftOf(g, id).state == Off && r.next == Successor(id) ==>
      r == g.(delay := 0, next := Successor(id))
    // an ON shaft completes with every output released and a settle delay
    ensures ShaftOf(g, id).state == On && r.next == Successor(id) ==>
      !ShaftOf(r, id).motorOn && !r.reverse && !r.slow && r.delay == t.genericPin
    // the motor is enabled only from ON, short of the target, and for a
    // center target only once slow is already up
    ensures !ShaftOf(g, id).motorOn && ShaftOf(r, id).motorOn ==>
      ShaftOf(g, id).state == On && ShaftOf(g, id).current != ShaftOf(g, id).target
      && (IsCenter(ShaftOf(g, id).target) ==> g.slow)
    // the motor is released only at the target, and never in the same tick
    // as reverse
    ensures ShaftOf(g, id).motorOn && !ShaftOf(r, id).motorOn ==>
      ShaftOf(g, id).current == ShaftOf(g, id).target && r.reverse == g.reverse
    // reverse is raised only when leaving OFF in the direction policy's way
    ensures !g.reverse && r.reverse ==>
      ShaftOf(g, id).state == Off && NeedReverse(ShaftOf(g, id).target, ShaftOf(g, id).current)
      && r.delay == t.reverseMotor
    // reverse is released only once the motor is already off
    ensures g.reverse && !r.reverse ==> !ShaftOf(g, id).motorOn
    // slow is raised only for a center target not yet reached, instead of
    // touching the motor
    ensures !g.slow && r.slow ==>
      IsCenter(ShaftOf(g, id).target) && ShaftOf(g, id).state == On
      && ShaftOf(g, id).current != ShaftOf(g, id).target
      && ShaftOf(r, id).motorOn == ShaftOf(g, id).motorOn
    // slow is released only on completion
    ensures g.slow && !r.slow ==> r.next == Successor(id) && !r.reverse
  {
    var w := Wait(g.delay, period);
    if w.stillWaiting then
      g.(delay := w.delay, next := SelfOf(id))
    else
      var g0 := g.(delay := w.delay);
      var s := ShaftOf(g0, id);
      match s.state
      case Off => StageOff(t, g0, id)
      case On =>
        if s.current == s.target then StageArrived(t, g0, id)
        else StageApproach(t, g0, id)
  }

  /** gearshift_stop: after the countdown, poll the twitch helper until it
      reports completion (`twitchDone`), then drop the interlock, let a
      spindle that was running before the shift run again, and go idle. */
  function StopPhase(t: Timing, g: Gearbox, period: int, twitchDone: bool): (r: Gearbox)
    ensures r.next == Stop || r.next == Idle
    ensures r.next == Idle <==> !Wait(g.delay, period).stillWaiting && twitchDone
    ensures r.(delay := g.delay, next := g.next, startShift := g.startShift,
               stopSpindle := g.stopSpindle, spindleOnBeforeShift := g.spindleOnBeforeShift) == g
    ensures r.next == Stop ==> SpindleUntouched(g, r)
    ensures Wait(g.delay, period).stillWaiting ==> r == g.(delay := g.delay - period, next := Stop)
    ensures r.next == Stop && !Wait(g.delay, period).stillWaiting ==> r.delay == t.twitchKeepPinOff
    ensures r.next == Idle ==> r.delay == 0
    ensures r.next == Idle ==>
      !r.startShift && !r.spindleOnBeforeShift
      && (r.stopSpindle <==> g.stopSpindle && !g.spindleOnBeforeShift)
  {
    var w := Wait(g.delay, period);
    if w.stillWaiting then
      g.(delay := w.delay, next := Stop)
    else if !twitchDone then
      g.(delay := t.twitchKeepPinOff, next := Stop)
    else
      g.(delay := w.delay, next := Idle, startShift := false,
         stopSpindle := if g.spindleOnBeforeShift then false else g.stopSpindle,
         spindleOnBeforeShift := false)
  }

  /** gearshift_handle: run the armed continuation. With none armed the
      component only logs an error, so nothing changes. */
  function Handle(t: Timing, g: Gearbox, period: int, twitchDone: bool): (r: Gearbox)
    ensures g.next == Idle ==> r == g
    ensures MasksUntouched(g, r)
    ensures r.next == Idle ==> g.next == Idle || g.next == Stop
  {
    match g.next
    case Idle => g
    case Input => Stage(t, g, InputShaft, period)
    case Midrange => Stage(t, g, MidrangeShaft, period)
    case Backgear => Stage(t, g, BackgearShaft, period)
    case Stop => StopPhase(t, g, period, twitchDone)
  }

  /** update_current_pingroup_masks: sample every shaft's pins with the
      loop of get_bitmask_from_pingroup and store the masks; the gearbox
      handed to `Handle` is the one `Refresh` builds from `Sample`. */
  method UpdateMasks(g: Gearbox, s: Sensors) returns (r: Gearbox)
    ensures UnpackPins(r.input.current) == s.input
    ensures UnpackPins(r.midrange.current) == s.midrange
    ensures UnpackPins(r.backgear.current) == s.backgear
    ensures r == Refresh(g, Sample(s))
  {
    var backgear := GetBitmask(s.backgear);
    var midrange := GetBitmask(s.midrange);
    var input := GetBitmask(s.input);
    r := Refresh(g, Nibbles(input, midrange, backgear));
  }

  /** One real-time tick: store the sampled masks, then handle the shift. */
  function Tick(t: Timing, g: Gearbox, period: int, readings: Nibbles, twitchDone: bool): (r: Gearbox)
    ensures Currents(r) == readings && Targets(r) == Targets(g)
    ensures g.next == Idle ==> r == Refresh(g, readings)
    ensures r.next == Idle ==> g.next == Idle || g.next == Stop
  {
    Handle(t, Refresh(g, readings), period, twitchDone)
  }

  /** The gear the sensors currently show, if any. */
  function Resolve(table: GearTable, g: Gearbox): (r: Option<nat>)
    ensures g.backgear.current == table.neutralValue ==> r == Some(table.neutralIndex)
    ensures g.backgear.current != table.neutralValue ==>
      (r.Some? <==> Combine(Currents(g)) in table.search)
    ensures g.backgear.current != table.neutralValue && r.Some? ==>
      Combine(Currents(g)) in table.search && r.value == table.search[Combine(Currents(g))]
  {
    CurrentGear(table, Currents(g))
  }
}
