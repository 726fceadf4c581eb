/** The kernel's event clock in unbounded arithmetic: what `timeout.rs` promises,
    before any 32-bit representation. */
module TimeoutSpec {
  import opened Num
  import opened Words
  import opened TimeoutTime

  /** `time` is the event time and `frontier` the greatest event time so far.
      `deadlines` maps each linked timeout to its arrival time. `ticks` counts
      the port's ticks since boot; `mark` is its value at the last mark, and
      `due` its value at which the port has been asked to call `timer_tick`. */
  datatype Clock = Clock(
    time: int,
    frontier: int,
    sys: int,
    deadlines: map<nat, int>,
    ticks: nat,
    mark: nat,
    due: nat)

  /** The constants a port provides. */
  datatype Port = Port(maxTickCount: u32, maxTimeout: u32)
  {
    ghost predicate Valid() {
      maxTickCount > 0 && maxTimeout > 0
    }
  }

  // ----- the earliest timeout -----

  ghost predicate IsEarliest(deadlines: map<nat, int>, id: nat) {
    id in deadlines && forall j :: j in deadlines ==> deadlines[id] <= deadlines[j]
  }

  /** Some linked timeout is the earliest. */
  lemma {:induction false} EarliestExists(deadlines: map<nat, int>)
    requires deadlines != map[]
    ensures exists id :: IsEarliest(deadlines, id)
    decreases |deadlines|
  {
    var k :| k in deadlines;
    var rest := deadlines - {k};
    assert forall j :: j in deadlines ==> j == k || j in rest;
    if rest == map[] {
      assert IsEarliest(deadlines, k);
    } else {
      assert |rest.Keys| < |deadlines.Keys| by { assert rest.Keys == deadlines.Keys - {k}; }
      EarliestExists(rest);
      var r :| IsEarliest(rest, r);
      assert IsEarliest(deadlines, if deadlines[k] <= rest[r] then k else r);
    }
  }

  ghost function Earliest(deadlines: map<nat, int>): (d: int)
    requires deadlines != map[]
    ensures exists id :: IsEarliest(deadlines, id) && deadlines[id] == d
  {
    EarliestExists(deadlines);
    var id :| IsEarliest(deadlines, id);
    deadlines[id]
  }

  /** The delay `pend_next_tick` passes to the port (zero means at once). */
  ghost function PendDelay(p: Port, deadlines: map<nat, int>, time: int): (d: nat) {
    if deadlines == map[] then p.maxTimeout
    else Min(p.maxTimeout, Positive(Earliest(deadlines) - time))
  }

  /** The tick the kernel needs: no later than the port's longest timeout and than any
      linked timeout, and no earlier than one of these. */
  ghost predicate WantsTick(p: Port, deadlines: map<nat, int>, time: int, delay: nat) {
    && delay <= p.maxTimeout
    && (forall id :: id in deadlines ==> delay <= Positive(deadlines[id] - time))
    && (delay == p.maxTimeout || exists id :: id in deadlines && delay == Positive(deadlines[id] - time))
  }

  /** The pended delay is the one the kernel needs, and there is only one such delay. */
  lemma PendDelayIsWanted(p: Port, deadlines: map<nat, int>, time: int, delay: nat)
    ensures WantsTick(p, deadlines, time, delay) <==> delay == PendDelay(p, deadlines, time)
  {
    if deadlines != map[] {
      var earliest := Earliest(deadlines);
      var id :| IsEarliest(deadlines, id) && deadlines[id] == earliest;
    }
  }

  ghost function Pend(p: Port, c: Clock): (c': Clock) {
    c.(due := c.ticks + PendDelay(p, c.deadlines, c.time))
  }

  // ----- transitions -----

  /** Time passes. */
  ghost function Pass(c: Clock, n: nat): (c': Clock) {
    var time := c.time + n;
    c.(time := time, frontier := if time > c.frontier then time else c.frontier, sys := c.sys + n, ticks := c.ticks + n)
  }

  /** What the environment guarantees while time passes: the ticks since the last
      mark stay countable, and no timeout is left past the critical point. */
  ghost predicate MayPass(p: Port, c: Clock, n: nat) {
    && c.ticks + n - c.mark <= p.maxTickCount
    && forall id :: id in c.deadlines ==> c.time + n <= c.deadlines[id] + USER_HEADROOM + HARD_HEADROOM
  }

  /** An adjustment is accepted unless it would move the frontier, or the earliest
      timeout, out of the user headroom. */
  ghost predicate Adjustable(c: Clock, delta: Duration) {
    if delta < 0 then
      c.frontier - (c.time + delta) <= USER_HEADROOM
    else
      delta == 0 || c.deadlines == map[] || delta <= Positive(Earliest(c.deadlines) + USER_HEADROOM - c.time)
  }

  /** Moves event time and system time together. */
  ghost function Shift(c: Clock, delta: int): (c': Clock) {
    var time := c.time + delta;
    c.(time := time, frontier := if time > c.frontier then time else c.frontier, sys := c.sys + delta)
  }

  ghost function Adjust(p: Port, c: Clock, delta: Duration): (c': Clock) {
    var marked := c.(mark := c.ticks);
    if delta == 0 || !Adjustable(c, delta) then marked else Pend(p, Shift(marked, delta))
  }

  /** Links a timeout that arrives `duration` from now. */
  ghost function Insert(p: Port, c: Clock, id: nat, deadline: int): (c': Clock) {
    Pend(p, c.(deadlines := c.deadlines[id := deadline]))
  }

  ghost function Remove(p: Port, c: Clock, id: nat): (c': Clock) {
    if id in c.deadlines then Pend(p, c.(deadlines := c.deadlines - {id})) else c
  }

  ghost function SetSystemTime(c: Clock, sys: nat): (c': Clock) {
    c.(sys := sys)
  }

  // ----- the invariant -----

  /** The frontier is at most the user headroom ahead, and every linked timeout lies
      between the critical point and the greatest event time plus the longest
      duration. */
  ghost predicate Inv(c: Clock) {
    && 0 <= c.frontier - c.time <= USER_HEADROOM
    && c.mark <= c.ticks
    && forall id :: id in c.deadlines ==>
         c.time - USER_HEADROOM - HARD_HEADROOM <= c.deadlines[id] <= c.frontier + DURATION_MAX
  }

  /** Every linked timeout can be compared by its 32-bit arrival time now. */
  ghost predicate Windowed(c: Clock) {
    && 0 <= c.frontier - c.time <= USER_HEADROOM
    && c.mark <= c.ticks
    && forall id :: id in c.deadlines ==> InWindow(c.deadlines[id], c.time)
  }

  /** An adjustment backward is accepted if and only if the frontier stays within the user
      headroom, one forward if and only if no timeout becomes overdue by more than it. */
  lemma AdjustableIff(c: Clock, delta: Duration)
    requires Inv(c)
    ensures Adjustable(c, delta) <==>
            if delta < 0 then c.frontier - (c.time + delta) <= USER_HEADROOM
            else delta == 0 || forall id :: id in c.deadlines ==> c.time + delta - c.deadlines[id] <= USER_HEADROOM
  {
    if c.deadlines != map[] {
      var earliest := Earliest(c.deadlines);
      var id :| IsEarliest(c.deadlines, id) && c.deadlines[id] == earliest;
    }
  }

  lemma InvBoundsWindow(c: Clock)
    requires Inv(c)
    ensures Windowed(c)
  {
  }

  /** An accepted adjustment leaves no timeout in the hard headroom, whatever it was
      before; a rejected one changes neither the clock nor the timeouts. */
  lemma AdjustKeepsInv(p: Port, c: Clock, delta: Duration)
    requires Inv(c)
    ensures Inv(Adjust(p, c, delta))
    ensures var c' := Adjust(p, c, delta);
            && c'.deadlines == c.deadlines
            && c'.time == (if Adjustable(c, delta) then c.time + delta else c.time)
            && c'.sys - c'.time == c.sys - c.time
    ensures Adjustable(c, delta) && delta > 0 ==>
              forall id :: id in c.deadlines ==> c.deadlines[id] >= Adjust(p, c, delta).time - USER_HEADROOM
  {
    if c.deadlines != map[] && delta > 0 && Adjustable(c, delta) {
      var id :| IsEarliest(c.deadlines, id) && c.deadlines[id] == Earliest(c.deadlines);
      assert c.time + delta <= c.deadlines[id] + USER_HEADROOM;
    }
  }

  // ----- timeouts that are linked too far ahead -----

  /** Whatever backward adjustment is permitted now, the kernel still sees the true
      time left until timeout `id` after it. */
  ghost predicate StaysReadable(p: Port, c: Clock, id: nat)
    requires id in c.deadlines
  {
    forall delta: Duration :: delta <= 0 && Adjustable(c, delta) ==>
      var now := Adjust(p, c, delta).time;
      DurationUntil(Wrap32(c.deadlines[id]), Wrap32(now)) == Positive(c.deadlines[id] - now)
  }

  /** The adjustment back to the end of the user headroom. */
  ghost function FullStepBack(c: Clock): (delta: int) {
    c.frontier - USER_HEADROOM - c.time
  }

  /** A timeout further ahead than the longest duration after the frontier is seen as
      due at once after a permitted backward adjustment. */
  lemma TooFarAheadIsDueAtOnce(p: Port, c: Clock, id: nat)
    requires Windowed(c) && id in c.deadlines && c.deadlines[id] > c.frontier + DURATION_MAX
    ensures var delta := FullStepBack(c);
            && -0x8000_0000 <= delta < 0 && Adjustable(c, delta)
            && var now := Adjust(p, c, delta).time;
               c.deadlines[id] - now > DURATION_MAX && DurationUntil(Wrap32(c.deadlines[id]), Wrap32(now)) == 0
  {
    var now := c.time + FullStepBack(c);
    var d := c.deadlines[id];
    var point := now - USER_HEADROOM - HARD_HEADROOM;
    ModSub(now, HARD_HEADROOM + USER_HEADROOM, TWO32);
    ModSub(d, point, TWO32);
    DivModUnique(d - point, TWO32, 1, d - point - TWO32);
  }

  /** So the bound by the frontier in the invariant is exactly what keeps a timeout
      readable. */
  lemma StaysReadableIff(p: Port, c: Clock, id: nat)
    requires Windowed(c) && id in c.deadlines
    ensures StaysReadable(p, c, id) <==> c.deadlines[id] <= c.frontier + DURATION_MAX
  {
    if c.deadlines[id] <= c.frontier + DURATION_MAX {
      forall delta: Duration | delta <= 0 && Adjustable(c, delta)
        ensures var now := Adjust(p, c, delta).time;
                DurationUntil(Wrap32(c.deadlines[id]), Wrap32(now)) == Positive(c.deadlines[id] - now)
      {
        DurationsAreExact(c.deadlines[id], Adjust(p, c, delta).time);
      }
    } else {
      TooFarAheadIsDueAtOnce(p, c, id);
    }
  }

  // ----- the pended tick -----

  /** The callbacks of `handle_tick` take `spent` ticks after the time for which the next
      tick is pended, and its interrupt comes `late` ticks late. */
  ghost function AtLateTick(p: Port, c: Clock, spent: nat, late: nat): (now: int) {
    c.time + spent + PendDelay(p, c.deadlines, c.time) + late
  }

  /** No timeout passes the critical point if and only if both together are within the
      two headrooms and the slack that the pended delay leaves before the earliest
      timeout; an overdue timeout takes from them instead. */
  lemma LatenessIsBounded(p: Port, c: Clock, spent: nat, late: nat)
    requires c.deadlines != map[]
    ensures (forall id :: id in c.deadlines ==>
            AtLateTick(p, c, spent, late) <= c.deadlines[id] + USER_HEADROOM + HARD_HEADROOM)
       <==> spent + late
              <= USER_HEADROOM + HARD_HEADROOM + (Earliest(c.deadlines) - c.time - PendDelay(p, c.deadlines, c.time))
  {
    var earliest := Earliest(c.deadlines);
    var id :| IsEarliest(c.deadlines, id) && c.deadlines[id] == earliest;
  }

  /** So if the earliest timeout is not overdue and not beyond the longest delay, the
      time the callbacks take comes out of the permitted lateness, tick for tick. */
  lemma CallbackTimeCountsAsLateness(p: Port, c: Clock, spent: nat, late: nat)
    requires c.deadlines != map[] && c.time <= Earliest(c.deadlines) <= c.time + p.maxTimeout
    ensures (forall id :: id in c.deadlines ==>
            AtLateTick(p, c, spent, late) <= c.deadlines[id] + USER_HEADROOM + HARD_HEADROOM)
       <==> spent + late <= USER_HEADROOM + HARD_HEADROOM
  {
    LatenessIsBounded(p, c, spent, late);
  }

  /** Time passes without any interrupt being late: the next tick is not yet due. */
  ghost predicate OnTime(c: Clock, n: nat) {
    c.ticks + n < c.due
  }

  /** A timeout is registered and cancelled just before the pended tick, over and
      over: no interrupt is ever late, because none is ever due. */
  ghost function Postpone(p: Port, c: Clock, rounds: nat): (c': Clock)
    decreases rounds
  {
    if rounds == 0 then c else Postpone(p, PostponeOnce(p, c), rounds - 1)
  }

  ghost function PostponeOnce(p: Port, c: Clock): (c': Clock) {
    var before := Pass(c, if c.due > c.ticks then c.due - c.ticks - 1 else 0);
    Remove(p, Insert(p, before, 0, before.time + DURATION_MAX), 0)
  }

  /** Registering and cancelling timeouts re-pends the tick without marking one, so
      for every port the ticks since the last mark are not bounded by
      `MAX_TICK_COUNT`, and the measured elapsed time becomes wrong although the
      port is never late and no timeout is ever overdue. */
  lemma MarkCanBePostponed(p: Port, c: Clock)
    requires p.maxTimeout >= 2 && c.deadlines == map[] && c.due == c.ticks + p.maxTimeout && c.mark <= c.ticks
    ensures var c' := Postpone(p, c, p.maxTickCount + 1);
            && OnTime(c', 0) && c'.deadlines == map[] && c'.mark == c.mark
            && ElapsedTicks(p.maxTickCount, PortCount(p.maxTickCount, c'.mark), PortCount(p.maxTickCount, c'.ticks))
               != c'.ticks - c'.mark
  {
    PostponeMany(p, c, p.maxTickCount + 1);
    var c' := Postpone(p, c, p.maxTickCount + 1);
    hide Postpone, PostponeOnce;
    ElapsedIsExact(p.maxTickCount, c'.mark, c'.ticks);
  }

  lemma OncePostponed(p: Port, c: Clock)
    requires p.maxTimeout >= 2 && c.deadlines == map[] && c.due == c.ticks + p.maxTimeout
    ensures var c' := PostponeOnce(p, c);
            && c'.deadlines == map[] && c'.mark == c.mark
            && c'.ticks > c.ticks && c'.due == c'.ticks + p.maxTimeout
  {
    var before := Pass(c, c.due - c.ticks - 1);
    var inserted := Insert(p, before, 0, before.time + DURATION_MAX);
    assert inserted.deadlines - {0} == map[];
  }

  lemma {:induction false} PostponeMany(p: Port, c: Clock, rounds: nat)
    requires p.maxTimeout >= 2 && c.deadlines == map[] && c.due == c.ticks + p.maxTimeout
    ensures var c' := Postpone(p, c, rounds);
            && c'.deadlines == map[] && c'.mark == c.mark
            && c'.ticks >= c.ticks + rounds && c'.due == c'.ticks + p.maxTimeout
    decreases rounds
  {
    hide PostponeOnce;
    if rounds > 0 {
      OncePostponed(p, c);
      PostponeMany(p, PostponeOnce(p, c), rounds - 1);
    }
  }
}
