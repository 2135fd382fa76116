/** The countdown shared by every stage of a gear shift.

    A stage arms the countdown with a positive interval and returns; on each
    later tick it first asks `Wait` whether the interval is still running. The
    counter is a signed `long` in the component; it may end up negative after
    the last subtraction and is reset to zero once the wait is over.
 */
module DelayTimer {

  /** Outcome of one call of the timer: whether the caller must keep waiting,
      and the countdown value left behind. */
  datatype WaitResult = WaitResult(stillWaiting: bool, delay: int)

  /** gearshift_wait_delay: subtract one tick's period while time remains. */
  function Wait(delay: int, period: int): (w: WaitResult)
    ensures w.stillWaiting <==> period > 0 && delay > 0
    ensures w.stillWaiting ==> w.delay == delay - period
    ensures !w.stillWaiting ==> w.delay == 0
  {
    if period > 0 && delay > 0 then WaitResult(true, delay - period)
    else WaitResult(false, 0)
  }

  /** A zero (or negative) period never waits and always clears the countdown. */
  lemma WaitWithoutTime(delay: int, period: int)
    requires period <= 0
    ensures Wait(delay, period) == WaitResult(false, 0)
  {
  }

  /** While waiting, the countdown strictly drops but never by more than one
      period below zero. */
  lemma WaitBounds(delay: int, period: int)
    requires Wait(delay, period).stillWaiting
    ensures -period < Wait(delay, period).delay < delay
  {
  }

  /** Once a wait has reported elapsed, asking again reports elapsed again:
      an elapsed countdown stays at zero. */
  lemma WaitElapsedIsStable(delay: int, period: int, period': int)
    requires !Wait(delay, period).stillWaiting
    ensures Wait(Wait(delay, period).delay, period') == Wait(delay, period)
  {
  }

  /** Number of consecutive ticks of length `period` that `Wait` reports
      "still waiting" before it first reports "elapsed". */
  function Polls(delay: int, period: int): nat
    requires period > 0
    decreases delay
  {
    var w := Wait(delay, period);
    if w.stillWaiting then 1 + Polls(w.delay, period) else 0
  }

  /** A countdown armed with `delay > 0` holds the stage back for exactly
      ceil(delay / period) ticks of a constant positive period: the least
      number of periods that together cover the delay. */
  lemma {:induction false} PollsIsCeiling(delay: int, period: int)
    requires period > 0
    ensures delay <= 0 ==> Polls(delay, period) == 0
    ensures delay > 0 ==> Polls(delay, period) >= 1
    ensures delay > 0 ==> delay <= Polls(delay, period) * period < delay + period
    decreases delay
  {
    if delay > 0 {
      var d' := delay - period;
      PollsIsCeiling(d', period);
      var n' := Polls(d', period);
      assert Polls(delay, period) == n' + 1;
      assert (n' + 1) * period == n' * period + period;
    }
  }

  /** A period no shorter than the armed delay holds the stage back for
      exactly one tick. */
  lemma OnePollWhenPeriodCoversDelay(delay: int, period: int)
    requires 0 < delay <= period
    ensures Polls(delay, period) == 1
  {
    assert Polls(delay - period, period) == 0;
  }
}
