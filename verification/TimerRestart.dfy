/** Stopping and restarting a timer (`stop_timer`, `start_timer` of `timer.rs`): the
    remaining delay is captured when the timer stops and counts again from the
    moment it starts. */
module TimerRestart {
  import opened Words
  import opened TimeoutTime
  import opened TimeoutSpec

  /** The delay that `stop_timer` stores. */
  ghost function Remaining(c: Clock, id: nat): (d: nat)
    requires id in c.deadlines
  {
    Positive(c.deadlines[id] - c.time)
  }

  /** Stops timer `id`, lets `n` ticks pass and starts it again. */
  ghost function StopAndStart(p: Port, c: Clock, id: nat, n: nat): (c': Clock)
    requires id in c.deadlines
  {
    var later := Pass(Remove(p, c, id), n);
    Insert(p, later, id, later.time + Remaining(c, id))
  }

  /** The pause shifts the arrival time of a timer that is not overdue, and of no
      other, by exactly its length; a pause of zero changes nothing. */
  lemma PauseShiftsArrival(p: Port, c: Clock, id: nat, n: nat)
    requires Inv(c) && id in c.deadlines && c.time <= c.deadlines[id]
    ensures StopAndStart(p, c, id, n).deadlines == c.deadlines[id := c.deadlines[id] + n]
    ensures Inv(StopAndStart(p, c, id, 0))
  {
    var rest := c.deadlines - {id};
    assert rest[id := c.deadlines[id] + n] == c.deadlines[id := c.deadlines[id] + n];
  }

  /** A stored delay exceeds the longest duration by at most the user headroom. */
  lemma RemainingIsBounded(c: Clock, id: nat)
    requires Inv(c) && id in c.deadlines
    ensures Remaining(c, id) <= DURATION_MAX + USER_HEADROOM
  {
  }

  /** For every delay that can be stored: the kernel sees the true time left until the
      timer it starts, after every backward adjustment permitted then, if and only if
      the delay is within the longest duration of the frontier. */
  lemma StartReadsRightIff(p: Port, c: Clock, id: nat, delay: nat)
    requires Inv(c) && delay <= DURATION_MAX + USER_HEADROOM
    ensures var c' := Insert(p, c, id, c.time + delay);
            id in c'.deadlines && (StaysReadable(p, c', id) <==> c.time + delay <= c.frontier + DURATION_MAX)
  {
    StaysReadableIff(p, Insert(p, c, id, c.time + delay), id);
  }

  /** Every longer delay that can be stored makes the timer due at once after a backward
      adjustment that is permitted. */
  lemma OverlongDelayIsDueAtOnce(p: Port, c: Clock, id: nat, delay: nat)
    requires Inv(c) && delay <= DURATION_MAX + USER_HEADROOM && c.time + delay > c.frontier + DURATION_MAX
    ensures var c' := Insert(p, c, id, c.time + delay);
            var delta := FullStepBack(c');
            && -0x8000_0000 <= delta < 0 && Adjustable(c', delta)
            && var now := Adjust(p, c', delta).time;
               c.time + delay - now > DURATION_MAX && DurationUntil(Wrap32(c.time + delay), Wrap32(now)) == 0
  {
    TooFarAheadIsDueAtOnce(p, Insert(p, c, id, c.time + delay), id);
  }

  const FULL_STEP_BACK: Duration := -(USER_HEADROOM as int)

  /** A timer with the longest delay is started at boot ... */
  ghost function Started(p: Port): (c: Clock) {
    Insert(p, Clock(0, 0, 0, map[], 0, 0, p.maxTimeout), 0, DURATION_MAX)
  }

  /** ... the time is adjusted backward as far as the frontier allows, and the timer
      is stopped, paused until the frontier is reached again, and restarted. */
  ghost function Restarted(p: Port): (c: Clock) {
    var back := Adjust(p, Started(p), FULL_STEP_BACK);
    assert 0 in back.deadlines;
    StopAndStart(p, back, 0, USER_HEADROOM)
  }

  /** Every step is permitted and every call succeeds, yet the stored delay has grown
      past the longest duration; after one more accepted adjustment the arrival time
      no longer fits the 32-bit window, and the kernel sees a timer that is due at
      once. */
  lemma RestartedTimerFiresEarly(p: Port)
    requires p.maxTickCount >= USER_HEADROOM
    ensures Adjustable(Started(p), FULL_STEP_BACK)
    ensures MayPass(p, Remove(p, Adjust(p, Started(p), FULL_STEP_BACK), 0), USER_HEADROOM)
    ensures Adjustable(Restarted(p), FULL_STEP_BACK)
    ensures var c := Adjust(p, Restarted(p), FULL_STEP_BACK);
            && 0 in c.deadlines && c.deadlines[0] - c.time == DURATION_MAX + 2 * USER_HEADROOM
            && !InWindow(c.deadlines[0], c.time)
            && DurationUntil(Wrap32(c.deadlines[0]), Wrap32(c.time)) == 0
  {
    var back := Adjust(p, Started(p), FULL_STEP_BACK);
    assert back.time == FULL_STEP_BACK && back.frontier == 0 && back.mark == back.ticks == 0;
    assert Remaining(back, 0) == DURATION_MAX + USER_HEADROOM;
    assert Restarted(p).time == 0 == Restarted(p).frontier;
  }
}
