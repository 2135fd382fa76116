/** Safety of the cascade: what holds of every gearbox state reachable from
    setup by ticks, spindle stops, and shifts started while idle.

    Only one stage runs per tick, and a stage touches only its own shaft and
    the shared reverse/slow pins. So an ON shaft, an enabled motor, or a
    raised reverse or slow pin always belongs to the stage that is armed;
    in particular at most one shaft motor is ever enabled, and nothing is
    left energized when the cascade reaches the stop phase.
 */
module ShiftSafety {
  import opened Masks
  import opened DelayTimer
  import opened GearCode
  import opened Gearshift

  /** Shaft `id` is ON only while its own stage is armed, and its motor is
      enabled only while it is ON. */
  predicate ShaftOwned(g: Gearbox, id: ShaftId)
  {
    (ShaftOf(g, id).state == On ==> g.next == SelfOf(id))
    && (ShaftOf(g, id).motorOn ==> ShaftOf(g, id).state == On)
  }

  /** The armed continuation is a stage whose shaft is ON. */
  predicate ArmedShaftOn(g: Gearbox)
  {
    match g.next
    case Input => g.input.state == On
    case Midrange => g.midrange.state == On
    case Backgear => g.backgear.state == On
    case _ => false
  }

  predicate Inv(g: Gearbox)
  {
    ShaftOwned(g, InputShaft) && ShaftOwned(g, MidrangeShaft) && ShaftOwned(g, BackgearShaft)
    && (g.reverse || g.slow ==> ArmedShaftOn(g))
  }

  function MotorsOn(g: Gearbox): nat
  {
    B2I(g.input.motorOn) + B2I(g.midrange.motorOn) + B2I(g.backgear.motorOn)
  }

  /** Setup establishes the invariant. */
  lemma InitEstablishesInv(table: GearTable)
    ensures Inv(Init(table))
  {
  }

  /** Under the invariant at most one shaft motor is enabled, and only the
      armed stage's. */
  lemma AtMostOneMotor(g: Gearbox)
    requires Inv(g)
    ensures MotorsOn(g) <= 1
    ensures forall id :: ShaftOf(g, id).motorOn ==> g.next == SelfOf(id)
  {
  }

  /** Between shifts and during the stop phase no shaft is ON and no motor,
      reverse or slow pin is asserted. */
  lemma QuietOutsideStages(g: Gearbox)
    requires Inv(g)
    requires g.next == Idle || g.next == Stop
    ensures forall id :: ShaftOf(g, id).state == Off && !ShaftOf(g, id).motorOn
    ensures !g.reverse && !g.slow
  {
  }

  lemma StagePreservesInv(t: Timing, g: Gearbox, id: ShaftId, period: int)
    requires Inv(g) && g.next == SelfOf(id)
    ensures Inv(Stage(t, g, id, period))
  {
    var r := Stage(t, g, id, period);
    assert ShaftOwned(r, id);
    forall o | o != id
      ensures ShaftOwned(r, o)
    {
      assert ShaftOf(g, o).state == Off;
    }
  }

  /** Every tick preserves the invariant. */
  lemma TickPreservesInv(t: Timing, g: Gearbox, period: int, readings: Nibbles, twitchDone: bool)
    requires Inv(g)
    ensures Inv(Tick(t, g, period, readings, twitchDone))
  {
    var g1 := Refresh(g, readings);
    assert Inv(g1);
    match g1.next
    case Idle =>
    case Input => StagePreservesInv(t, g1, InputShaft, period);
    case Midrange => StagePreservesInv(t, g1, MidrangeShaft, period);
    case Backgear => StagePreservesInv(t, g1, BackgearShaft, period);
    case Stop => QuietOutsideStages(g1);
  }

  /** Starting a shift from idle preserves the invariant. */
  lemma StartFromIdlePreservesInv(t: Timing, table: GearTable, g: Gearbox, value: int)
    requires Inv(g) && g.next == Idle
    ensures Inv(Start(t, table, g, value))
  {
    QuietOutsideStages(g);
  }

  /** Capturing the spindle state preserves the invariant. */
  lemma StopSpindlePreservesInv(g: Gearbox, spindleStopped: bool)
    requires Inv(g)
    ensures Inv(StopSpindle(g, spindleStopped))
  {
  }

  /** Starting a new shift while a stage is still driving its shaft is not
      covered: when the new cascade arms a different stage, nothing releases
      the running motor and no armed stage owns it. */
  lemma RestartMidShiftStrandsMotor(t: Timing, table: GearTable, g: Gearbox, id: ShaftId, value: int)
    requires ShaftOf(g, id).state == On && ShaftOf(g, id).motorOn
    requires SelfOf(id) != if value % 16 == table.neutralValue then Backgear else Input
    ensures Start(t, table, g, value).next != SelfOf(id)
    ensures ShaftOf(Start(t, table, g, value), id).motorOn
    ensures !Inv(Start(t, table, g, value))
  {
    var r := Start(t, table, g, value);
    assert ShaftOf(r, id).state == On;
    assert !ShaftOwned(r, id);
  }

  /** When the new cascade arms the very stage that was running, that stage
      keeps its shaft and the invariant survives the restart. */
  lemma RestartSameStageKeepsInv(t: Timing, table: GearTable, g: Gearbox, id: ShaftId, value: int)
    requires Inv(g) && g.next == SelfOf(id)
    requires SelfOf(id) == if value % 16 == table.neutralValue then Backgear else Input
    ensures Start(t, table, g, value).next == SelfOf(id)
    ensures Inv(Start(t, table, g, value))
  {
  }

  /** A concrete restart: the midrange motor runs, a non-neutral gear arms
      the input stage, and the midrange motor is left running unowned. */
  lemma RestartStrandsMidrangeMotor()
    ensures var t := Timing(1, 1, 1, 1);
            var table := GearTable(0, 0, map[]);
            var g := Init(table).(midrange := Shaft(On, 1, 2, true), next := Midrange);
            Inv(g) && !Inv(Start(t, table, g, 0x123))
            && Start(t, table, g, 0x123).midrange.motorOn
            && Start(t, table, g, 0x123).next == Input
  {
  }

  /** A shaft motor is enabled for a center target only on a tick after the
      one that raised slow. */
  lemma SlowBeforeMotor(t: Timing, g: Gearbox, id: ShaftId, period: int, readings: Nibbles, twitchDone: bool)
    requires !ShaftOf(g, id).motorOn && IsCenter(ShaftOf(g, id).target)
    requires ShaftOf(Tick(t, g, period, readings, twitchDone), id).motorOn
    ensures g.slow && Tick(t, g, period, readings, twitchDone).slow
  {
    var g1 := Refresh(g, readings);
    assert ShaftOf(g1, id).target == ShaftOf(g, id).target;
    match g1.next
    case Idle =>
    case Input =>
    case Midrange =>
    case Backgear =>
    case Stop =>
  }

  /** One stage tick of the armed shaft releases reverse only with every
      motor already off, and slow only together with or after reverse. */
  lemma StageReleaseOrder(t: Timing, g: Gearbox, id: ShaftId, period: int)
    requires Inv(g) && g.next == SelfOf(id)
    ensures var r := Stage(t, g, id, period);
            (g.reverse && !r.reverse ==> MotorsOn(g) == 0 && MotorsOn(r) == 0)
            && (g.slow && !r.slow ==> !r.reverse && MotorsOn(r) == 0)
  {
    var r := Stage(t, g, id, period);
    forall o | o != id
      ensures !ShaftOf(g, o).motorOn && ShaftOf(r, o) == ShaftOf(g, o)
    {
    }
  }

  /** Reverse is released only on a tick that starts with every motor off,
      and slow only together with or after reverse. */
  lemma ReleaseOrder(t: Timing, g: Gearbox, period: int, readings: Nibbles, twitchDone: bool)
    requires Inv(g)
    ensures var r := Tick(t, g, period, readings, twitchDone);
            (g.reverse && !r.reverse ==> MotorsOn(g) == 0 && MotorsOn(r) == 0)
            && (g.slow && !r.slow ==> !r.reverse && MotorsOn(r) == 0)
  {
    var g1 := Refresh(g, readings);
    match g1.next
    case Idle =>
    case Input => StageReleaseOrder(t, g1, InputShaft, period);
    case Midrange => StageReleaseOrder(t, g1, MidrangeShaft, period);
    case Backgear => StageReleaseOrder(t, g1, BackgearShaft, period);
    case Stop =>
  }
}
