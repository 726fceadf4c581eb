/** The kernel's timeout state and its operations on 32-bit fields
    (`TimeoutGlobals` of `timeout.rs`, and the timers of `timer.rs`), each shown
    to be the unbounded operation of `TimeoutSpec`. */
module Timeouts {
  import opened Num
  import opened Words
  import opened TimeoutTime
  import opened TimeoutSpec
  import Runs = TimeoutRuns
  import opened TimeoutHeap
  import opened Expiry

  function Wrap64(x: int): (w: u64) {
    x % TWO64
  }

  lemma Wrap64Add(x: int, y: int)
    ensures Wrap64(Wrap64(x) + y) == Wrap64(x + y)
  {
    ModAdd(x, y, TWO64);
  }

  /** The clock `elapsed` ticks after a mark. */
  ghost function ClockAt(base: Clock, deadlines: map<nat, int>, ticks: nat, due: nat): (c: Clock)
    requires base.mark <= ticks
  {
    Pass(base.(deadlines := deadlines, ticks := base.mark, due := due), ticks - base.mark)
  }

  /** Measuring from a new mark describes the same clock. */
  lemma MarkedClock(base: Clock, deadlines: map<nat, int>, ticks: nat, due: nat)
    requires base.mark <= ticks
    ensures var elapsed := ticks - base.mark;
            var c := ClockAt(base, deadlines, ticks, due);
            var marked := c.(mark := ticks);
            && ClockAt(marked, deadlines, ticks, due) == marked
            && c.time == base.time + elapsed && c.sys == base.sys + elapsed
            && (base.time <= base.frontier ==> c.frontier - c.time == SatSub(base.frontier - base.time, elapsed))
            && (Inv(c) ==> Inv(marked)) && (Windowed(c) ==> Windowed(marked))
  {
    hide InWindow;
  }

  /** What the callback of a timeout that arrived at `at` links again. */
  ghost function Rearmed(periods: Periods, id: nat, at: int): (dl: map<nat, int>) {
    if id in periods then map[id := at + periods[id]] else map[]
  }

  /** A delay or period as the configuration and the timer calls give it. */
  predicate IsDelay(raw: u32) {
    raw <= DURATION_MAX || raw == BAD_DURATION32
  }

  /** Every linked timeout holds the 32-bit image of its arrival time. */
  ghost predicate ImagesOf(pos: seq<nat>, at: seq<u32>, dl: seq<int>)
    requires |pos| == |at| == |dl|
  {
    forall e :: 0 <= e < |pos| && pos[e] != HEAP_POS_NONE ==> at[e] == Wrap32(dl[e])
  }

  /** A linked timer is active; a timer that is active and unlinked has no delay; a
      stopped one stores its delay. Nothing is said of the links of timeout `x`, whose
      timer is active. */
  ghost predicate TimersOk(active: seq<bool>, period: seq<u32>, timers: nat, pos: seq<nat>, at: seq<u32>, x: nat) {
    && |active| == |period| == timers <= |pos| == |at|
    && (forall i :: 0 <= i < timers && pos[i] != HEAP_POS_NONE ==> active[i])
    && (x < timers ==> active[x])
    && (forall i :: 0 <= i < timers && i != x && active[i] && pos[i] == HEAP_POS_NONE ==> at[i] == BAD_DURATION32)
    && (forall i :: 0 <= i < timers && !active[i] ==> at[i] <= DURATION_MAX + USER_HEADROOM || at[i] == BAD_DURATION32)
    && (forall i :: 0 <= i < timers ==> IsDelay(period[i]))
  }

  /** Unlinking one timeout leaves the links of the others, and what they say, alone. */
  lemma UnlinkOne(pos: seq<nat>, pos': seq<nat>, at: seq<u32>, dl: seq<int>, x: nat)
    requires |pos| == |pos'| == |at| == |dl| && DeadlinesOf(pos', dl) == DeadlinesOf(pos, dl) - {x}
    ensures forall f :: 0 <= f < |pos| && f != x ==> (pos[f] == HEAP_POS_NONE) == (pos'[f] == HEAP_POS_NONE)
    ensures ImagesOf(pos, at, dl) && x < |pos| && pos'[x] == HEAP_POS_NONE ==> ImagesOf(pos', at, dl)
  {
    forall f | 0 <= f < |pos| && f != x
      ensures (pos[f] == HEAP_POS_NONE) == (pos'[f] == HEAP_POS_NONE)
    {
      assert f in DeadlinesOf(pos', dl) <==> f in DeadlinesOf(pos, dl);
    }
  }

  lemma TakeTimer(active: seq<bool>, period: seq<u32>, timers: nat, pos: seq<nat>, pos': seq<nat>, at: seq<u32>, x: nat)
    requires TimersOk(active, period, timers, pos, at, |pos|) && |pos'| == |pos| && x < |pos|
    requires pos[x] != HEAP_POS_NONE && pos'[x] == HEAP_POS_NONE
    requires forall f :: 0 <= f < |pos| && f != x ==> (pos[f] == HEAP_POS_NONE) == (pos'[f] == HEAP_POS_NONE)
    ensures TimersOk(active, period, timers, pos', at, x)
  {
    hide IsDelay;
  }

  /** Timeout `x` alone is relinked or stored anew, and what it then says fits its timer. */
  lemma SettleTimer(active: seq<bool>, active': seq<bool>, period: seq<u32>, timers: nat, pos: seq<nat>,
      pos': seq<nat>, at: seq<u32>, at': seq<u32>, x: nat)
    requires TimersOk(active, period, timers, pos, at, |pos|) || TimersOk(active, period, timers, pos, at, x)
    requires |pos'| == |pos| == |at'| && |active'| == |active| && x < |pos| && SameLinks(pos, pos', x, |pos|)
    requires forall f :: 0 <= f < |pos| && f != x ==> at'[f] == at[f]
    requires forall f :: 0 <= f < timers && f != x ==> active'[f] == active[f]
    requires x < timers ==>
               && (pos'[x] != HEAP_POS_NONE ==> active'[x])
               && (active'[x] && pos'[x] == HEAP_POS_NONE ==> at'[x] == BAD_DURATION32)
               && (!active'[x] ==> at'[x] <= DURATION_MAX + USER_HEADROOM || at'[x] == BAD_DURATION32)
    ensures TimersOk(active', period, timers, pos', at', |pos|)
  {
    hide IsDelay;
  }

  lemma FewerDeadlines(c: Clock, id: nat)
    ensures Inv(c) ==> Inv(c.(deadlines := c.deadlines - {id}))
    ensures Windowed(c) ==> Windowed(c.(deadlines := c.deadlines - {id}))
  {
    hide InWindow;
  }

  /** The clock after the boot-time start of a timer: one that is configured active and
      has a delay is linked, to arrive that long after boot. */
  ghost function InitOne(p: Port, c: Clock, id: nat, initActive: bool, delay: u32): (c': Clock) {
    if initActive && delay != BAD_DURATION32 then Insert(p, c, id, delay) else c
  }

  lemma InitOneKeepsTime(p: Port, c: Clock, id: nat, initActive: bool, delay: u32)
    ensures InitOne(p, c, id, initActive, delay).time == c.time
  {
  }

  ghost function InitAll(p: Port, c: Clock, initActive: seq<bool>, delays: seq<u32>, n: nat): (c': Clock)
    requires n <= |initActive| && n <= |delays|
  {
    if n == 0 then c
    else InitOne(p, InitAll(p, c, initActive, delays, n - 1), n - 1, initActive[n - 1], delays[n - 1])
  }

  /** Boot links exactly the timers that are configured active with a delay, each to
      arrive its delay after boot, whenever in the boot it is started. */
  lemma {:induction false} InitAllLinks(p: Port, c: Clock, initActive: seq<bool>, delays: seq<u32>, n: nat)
    requires n <= |initActive| && n <= |delays| && c.deadlines == map[]
    ensures var c' := InitAll(p, c, initActive, delays, n);
            && c'.(deadlines := map[], due := c.due) == c
            && c'.deadlines == map i: nat | i < n && initActive[i] && delays[i] != BAD_DURATION32 :: delays[i] as int
  {
    if n > 0 { InitAllLinks(p, c, initActive, delays, n - 1); }
  }

  class TimeoutGlobals {
    const port: Port
    /** The heap of linked timeouts. Timeouts below `timers` belong to the timers,
        the others to tasks that wait with a time limit. */
    const store: Heap
    const timers: nat
    var lastTickCount: u32
    var lastTickTime: u32
    var lastTickSysTime: u64
    var frontierGap: u32
    var handleTickInProgress: bool
    /** The port: its tick counter, and the delay it was last given. */
    var tickCount: u32
    var pendedDelay: u32
    /** `TimerCb::active` and `TimerCb::period`. */
    var active: seq<bool>
    var period: seq<u32>
    /** The clock at the last mark (its timeouts are in `store`), the ticks since
        boot, and the tick at which the pended tick is due. */
    ghost var base: Clock
    ghost var ticks: nat
    ghost var due: nat

    /** The fields are the 32-bit images of the clock at the last mark, and the port
        can still measure the ticks since then. */
    ghost predicate Synced()
      reads this`lastTickCount, this`lastTickTime, this`lastTickSysTime, this`frontierGap, this`tickCount
      reads this`base, this`ticks
    {
      && port.Valid()
      && base.mark <= ticks <= base.mark + port.maxTickCount
      && lastTickCount == PortCount(port.maxTickCount, base.mark)
      && tickCount == PortCount(port.maxTickCount, ticks)
      && lastTickTime == Wrap32(base.time)
      && lastTickSysTime == Wrap64(base.sys)
      && frontierGap == base.frontier - base.time <= USER_HEADROOM
    }

    /** Every linked timeout holds the 32-bit image of its arrival time. */
    ghost predicate Images()
      requires store.Shaped()
      reads store
    {
      ImagesOf(store.heapPos, store.at, store.deadline)
    }

    /** The fields describe the clock, and every linked timeout can be compared now. */
    ghost predicate Sound()
      reads this`lastTickCount, this`lastTickTime, this`lastTickSysTime, this`frontierGap, this`tickCount
      reads this`base, this`ticks, this`due, store
    {
      Synced() && store.Valid() && Images() && Windowed(Abs())
    }

    ghost predicate Core()
      reads this`lastTickCount, this`lastTickTime, this`lastTickSysTime, this`frontierGap, this`tickCount
      reads this`base, this`ticks, this`due, store
    {
      Sound() && Inv(Abs())
    }

    /** A linked timer is active; a timer that is active and unlinked has no delay; a
        stopped one stores its delay. */
    ghost predicate TimersMatch()
      reads this`active, this`period, store
    {
      TimersMatchExcept(store.capacity)
    }

    /** The same, but for timeout `x`, which has just been taken out of the heap. */
    ghost predicate TimersMatchExcept(x: nat)
      reads this`active, this`period, store
    {
      && |store.heapPos| == |store.at| == store.capacity
      && TimersOk(active, period, timers, store.heapPos, store.at, x)
    }

    ghost predicate Valid()
      reads this, store
    {
      Core() && TimersMatch() && !handleTickInProgress
    }

    ghost function Abs(): (c: Clock)
      requires base.mark <= ticks && store.Shaped()
      reads this`base, this`ticks, this`due, store
    {
      ClockAt(base, store.Deadlines(), ticks, due)
    }

    ghost function Periods(): (p: Periods)
      reads this`period
    {
      map e: nat | e < |period| && period[e] != BAD_DURATION32 :: period[e]
    }

    /** The static state and `init`: the first mark is the port's first reading. Timers
        hold their configured periods, and as arrival times since boot their configured
        delays; they are started by `InitTimers`. */
    constructor (port: Port, reading: u32, delays: seq<u32>, periods: seq<u32>, tasks: nat)
      requires port.Valid() && reading <= port.maxTickCount
      requires |delays| == |periods| && |delays| + tasks < HEAP_POS_NONE
      requires forall i :: 0 <= i < |delays| ==> IsDelay(delays[i]) && IsDelay(periods[i])
      ensures Valid() && fresh(store) && this.port == port && timers == |delays| && store.capacity == |delays| + tasks
      ensures Abs() == Clock(0, 0, 0, map[], reading, reading, reading + port.maxTimeout)
      ensures pendedDelay == port.maxTimeout
      ensures period == periods && active == seq(timers, _ => false) && store.at[..timers] == delays
    {
      this.port := port;
      timers := |delays|;
      store := new Heap(delays, tasks);
      lastTickCount := reading;
      lastTickTime := 0;
      lastTickSysTime := 0;
      frontierGap := 0;
      handleTickInProgress := false;
      tickCount := reading;
      pendedDelay := port.maxTimeout;
      active := seq(|delays|, _ => false);
      period := periods;
      base := Clock(0, 0, 0, map[], reading, reading, 0);
      ticks := reading;
      due := reading + port.maxTimeout;
      new;
      ModSmall(reading, port.maxTickCount + 1);
    }

    /** `init_timer`, while boot has taken no longer than an interrupt may be late. */
    method InitTimer(i: nat, initActive: bool)
      requires Valid() && i < timers && !active[i] && IsDelay(store.at[i])
      requires 0 <= Abs().time <= USER_HEADROOM + HARD_HEADROOM
      modifies this`pendedDelay, this`due, this`active, store`heap, store`heapPos, store`deadline
      ensures Valid() && active == old(active)[i := initActive]
      ensures Abs() == InitOne(port, old(Abs()), i, initActive, store.at[i])
    {
      hide Core, Sound, Abs, PendDelay, Pend;
      CoreIsSound();
      if initActive {
        var delay := store.at[i];
        if delay != BAD_DURATION32 {
          FromBoot(i);
          FrontierIsAhead();
          InsertTimeout(i);
        }
        active := active[i := true];
      }
    }

    /** The configured delay counts from boot. */
    ghost method FromBoot(i: nat)
      requires Core() && i < store.capacity && !store.Linked(i) && IsDelay(store.at[i])
      modifies store`deadline
      ensures Core() && Sound() && Abs() == old(Abs())
      ensures |store.deadline| == store.capacity && store.deadline[i] == store.at[i]
      ensures store.at[i] == Wrap32(store.deadline[i])
    {
      ModSmall(store.at[i], TWO32);
      store.SetDeadline(i, store.at[i]);
    }

    /** `init_timer` for every timer, as `boot` does. */
    method InitTimers(initActive: seq<bool>)
      requires Valid() && |initActive| == timers && active == seq(timers, _ => false)
      requires forall i :: 0 <= i < timers ==> IsDelay(store.at[i])
      requires 0 <= Abs().time <= USER_HEADROOM + HARD_HEADROOM
      modifies this`pendedDelay, this`due, this`active, store`heap, store`heapPos, store`deadline
      ensures Valid() && active == initActive
      ensures Abs() == InitAll(port, old(Abs()), initActive, store.at, timers)
    {
      hide Core, Sound, Abs, InitOne, TimersMatch, IsDelay, Heap.Shaped, Inv;
      CoreHasInv();
      EveryTimerIsStored();
      ghost var c := Abs();
      var k := 0;
      while k < timers
        invariant k <= timers && Valid() && base.mark <= ticks && store.Shaped()
        invariant timers <= |store.at|
        invariant active == initActive[..k] + seq(timers - k, _ => false)
        invariant Abs() == InitAll(port, c, initActive, store.at, k)
        invariant 0 <= Abs().time <= USER_HEADROOM + HARD_HEADROOM
      {
        InitOneKeepsTime(port, Abs(), k, initActive[k], store.at[k]);
        InitTimer(k, initActive[k]);
        CoreHasInv();
        k := k + 1;
      }
    }

    lemma PeriodIsDelay(x: nat)
      requires TimersMatchExcept(x)
      ensures |active| == |period| == timers <= |store.at| == |store.heapPos| == store.capacity
      ensures x < timers ==> active[x] && IsDelay(period[x])
    {
    }

    lemma UnlinkedTimerIsStored(i: nat)
      requires TimersMatch() && i < timers
      ensures |store.at| == |store.heapPos| == store.capacity
      ensures !store.Linked(i) ==> store.at[i] <= DURATION_MAX + USER_HEADROOM || store.at[i] == BAD_DURATION32
    {
    }

    lemma EveryTimerIsStored()
      requires TimersMatch()
      ensures |active| == timers <= |store.at| == |store.heapPos| == store.capacity
    {
    }

    // ----- comparisons at the current time -----

    lemma SoundIsComparable()
      requires Sound()
      ensures store.AllComparable(Abs().time)
    {
      forall e | 0 <= e < store.capacity && store.heapPos[e] != HEAP_POS_NONE
        ensures store.Comparable(e, Abs().time)
      {
        assert e in Abs().deadlines;
      }
    }

    /** The head of the heap is the earliest timeout. */
    lemma HeadIsEarliest()
      requires store.Valid()
      ensures store.heap == [] <==> store.Deadlines() == map[]
      ensures store.heap != [] ==>
                && IsEarliest(store.Deadlines(), store.heap[0])
                && Earliest(store.Deadlines()) == store.Deadlines()[store.heap[0]] == store.deadline[store.heap[0]]
    {
      store.WithinCapacity();
      if store.heap != [] {
        assert store.heapPos[store.heap[0]] == 0;
        assert store.heap[0] in store.Deadlines();
        forall e | e in store.Deadlines()
          ensures store.deadline[store.heap[0]] <= store.Deadlines()[e]
        {
          store.TopIsEarliest(store.heapPos[e]);
        }
      } else {
        assert forall e :: e !in store.Deadlines();
      }
    }

    // ----- the clock -----

    /** The environment: `n` ticks pass. */
    method PassTicks(n: nat)
      requires Valid() && MayPass(port, Abs(), n)
      modifies this`tickCount, this`ticks
      ensures Valid() && Abs() == Pass(old(Abs()), n)
    {
      CorePassTicks(n);
    }

    /** `duration_since_last_tick`. */
    method DurationSinceLastTick() returns (elapsed: u32, reading: u32)
      requires Synced()
      ensures elapsed == ticks - base.mark && reading == tickCount
    {
      ElapsedIsExact(port.maxTickCount, base.mark, ticks);
      return ElapsedTicks(port.maxTickCount, lastTickCount, tickCount), tickCount;
    }

    /** `mark_tick`: changes nothing that can be observed. */
    method MarkTick()
      requires Core()
      modifies this`lastTickCount, this`lastTickTime, this`lastTickSysTime, this`frontierGap, this`base
      ensures Core() && Abs() == old(Abs()).(mark := ticks) && base.mark == ticks
      ensures lastTickTime == Wrap32(Abs().time)
    {
      hide Wrap64, Wrap32, ImagesOf, Heap.Ordered, Heap.IndexedExcept, PortCount, Inv, Windowed, ClockAt;
      var elapsed, reading := DurationSinceLastTick();
      Add32Exact(base.time, elapsed);
      SmallWord(elapsed);
      Wrap64Add(base.sys, elapsed);
      ghost var marked := Abs().(mark := ticks);
      MarkedClock(base, store.Deadlines(), ticks, due);
      lastTickCount := reading;
      lastTickTime := Add32(lastTickTime, elapsed);
      lastTickSysTime := Wrap64(lastTickSysTime + elapsed);
      frontierGap := SatSub(frontierGap, elapsed);
      base := marked;
    }

    /** `current_time`. */
    method CurrentTime() returns (t: u32)
      requires Sound()
      ensures t == Wrap32(Abs().time)
    {
      var elapsed, _ := DurationSinceLastTick();
      Add32Exact(base.time, elapsed);
      SmallWord(elapsed);
      t := Add32(lastTickTime, elapsed);
    }

    /** `system_time`. */
    method SystemTime() returns (t: u64)
      requires Core()
      ensures t == Wrap64(Abs().sys)
    {
      hide Wrap64, Inv, Images, Heap.Valid;
      var elapsed, _ := DurationSinceLastTick();
      Wrap64Add(base.sys, elapsed);
      t := Wrap64(lastTickSysTime + elapsed);
    }

    /** `set_system_time`: touches nothing but the system time. */
    method SetSystemTime(newSysTime: u64)
      requires Valid()
      modifies this`lastTickSysTime, this`base
      ensures Valid() && Abs() == TimeoutSpec.SetSystemTime(old(Abs()), newSysTime)
    {
      var elapsed, _ := DurationSinceLastTick();
      lastTickSysTime := Wrap64(newSysTime - elapsed);
      base := base.(sys := newSysTime - elapsed);
    }

    /** `adjust_system_and_event_time`; `false` stands for `BadObjectState`. */
    method AdjustTime(delta: Duration) returns (accepted: bool)
      requires Valid()
      modifies this`lastTickCount, this`lastTickTime, this`lastTickSysTime, this`frontierGap, this`base
      modifies this`pendedDelay, this`due
      ensures Valid() && Abs() == Adjust(port, old(Abs()), delta)
      ensures accepted == Adjustable(old(Abs()), delta)
      ensures accepted && delta != 0 ==> WantsTick(port, Abs().deadlines, Abs().time, pendedDelay)
    {
      hide WantsTick;
      MarkTick();
      if delta == 0 {
        return true;
      }
      accepted := AdjustMarked(delta);
    }

    /** The adjustment proper, once `mark_tick` has brought the fields up to date. */
    method AdjustMarked(delta: Duration) returns (accepted: bool)
      requires Core() && base.mark == ticks && delta != 0 && lastTickTime == Wrap32(Abs().time)
      modifies this`lastTickTime, this`lastTickSysTime, this`frontierGap, this`base, this`pendedDelay, this`due
      ensures Core() && accepted == Adjustable(old(Abs()), delta)
      ensures Abs() == if accepted then Pend(port, Shift(old(Abs()), delta)) else old(Abs())
      ensures accepted ==> WantsTick(port, Abs().deadlines, Abs().time, pendedDelay)
    {
      hide WantsTick;
      AdjustKeepsInv(port, Abs(), delta);
      accepted := AdjustFrontierGap(delta);
      hide Images, Heap.Valid, Wrap32, Wrap64, PortCount, Adjustable;
      if accepted {
        ShiftClock(delta);
        Repend(lastTickTime);
      }
    }

    /** The two checks of an adjustment, and its effect on the frontier gap. */
    method AdjustFrontierGap(delta: Duration) returns (accepted: bool)
      requires Core() && base.mark == ticks && delta != 0
      modifies this`frontierGap
      ensures accepted == Adjustable(Abs(), delta)
      ensures frontierGap == if accepted then Positive(base.frontier - base.time - delta) else old(frontierGap)
    {
      HeadIsEarliest();
      if delta < 0 {
        var deltaAbs := FromNegDuration(delta).value;
        var newGap := frontierGap + deltaAbs;
        if newGap > USER_HEADROOM {
          return false;
        }
        frontierGap := newGap;
      } else {
        var deltaAbs := FromDuration(delta).value;
        if store.heap != [] {
          SoundIsComparable();
          assert store.Comparable(store.heap[0], base.time) by { store.WithinCapacity(); }
          DurationsAreExact(store.deadline[store.heap[0]], base.time);
          var duration := DurationBeforeHardZone(store.at[store.heap[0]], lastTickTime);
          if duration < deltaAbs {
            return false;
          }
        }
        frontierGap := SatSub(frontierGap, deltaAbs);
      }
      accepted := true;
    }

    /** Adds `delta` to both clocks. */
    method ShiftClock(delta: Duration)
      requires store.Valid() && Images() && base.mark == ticks && base.time <= base.frontier
      requires Inv(Shift(Abs(), delta)) && frontierGap == Shift(Abs(), delta).frontier - base.time - delta
      requires port.Valid() && lastTickCount == tickCount == PortCount(port.maxTickCount, ticks)
      requires lastTickTime == Wrap32(base.time) && lastTickSysTime == Wrap64(base.sys)
      modifies this`lastTickTime, this`lastTickSysTime, this`base
      ensures Core() && Abs() == Shift(old(Abs()), delta)
      ensures lastTickTime == Wrap32(Abs().time)
    {
      Add32Exact(base.time, delta);
      Wrap64Add(base.sys, Wrap64(delta));
      Wrap64Add(delta, base.sys);
      hide Wrap32, Add32, Wrap64, Images, PortCount, Heap.Valid;
      lastTickTime := Add32(lastTickTime, Wrap32(delta));
      lastTickSysTime := Wrap64(lastTickSysTime + Wrap64(delta));
      base := Shift(base, delta);
    }

    /** Schedules the next tick from the current time. */
    method Repend(currentTime: u32)
      requires Sound() && currentTime == Wrap32(Abs().time)
      modifies this`pendedDelay, this`due
      ensures Sound() && Abs() == Pend(port, old(Abs())) && (old(Core()) ==> Core())
      ensures WantsTick(port, Abs().deadlines, Abs().time, pendedDelay)
    {
      SoundIsComparable();
      RependAt(currentTime, Abs().time);
    }

    method RependAt(currentTime: u32, ghost now: int)
      requires Sound() && store.AllComparable(now) && currentTime == Wrap32(now)
      modifies this`pendedDelay, this`due
      ensures Sound() && (old(Core()) ==> Core())
      ensures Abs() == old(Abs()).(due := ticks + PendDelay(port, old(Abs()).deadlines, now))
      ensures WantsTick(port, Abs().deadlines, now, pendedDelay)
    {
      PendNextTick(currentTime, now);
    }

    lemma CoreHasInv()
      requires Core()
      ensures Inv(Abs()) && Abs().ticks == ticks && base.mark <= ticks && store.Shaped()
    {
    }

    /** `pend_next_tick`; a zero delay is `pend_tick`. `now` is the unbounded time
        behind `currentTime`. */
    method PendNextTick(currentTime: u32, ghost now: int)
      requires port.Valid() && store.Valid() && store.AllComparable(now)
      requires currentTime == Wrap32(now)
      modifies this`pendedDelay, this`due
      ensures pendedDelay == PendDelay(port, store.Deadlines(), now)
      ensures WantsTick(port, store.Deadlines(), now, pendedDelay)
      ensures due == ticks + pendedDelay
    {
      PendDelayIsWanted(port, store.Deadlines(), now, PendDelay(port, store.Deadlines(), now));
      hide WantsTick;
      HeadIsEarliest();
      var delay := port.maxTimeout;
      if store.heap != [] {
        assert store.Comparable(store.heap[0], now) by { store.WithinCapacity(); }
        DurationsAreExact(store.deadline[store.heap[0]], now);
        delay := Min(delay, DurationUntil(store.at[store.heap[0]], currentTime));
      }
      pendedDelay := delay;
      due := ticks + delay;
    }

    // ----- registration -----

    /** `e` holds the image of an arrival time that can be compared now. */
    ghost predicate Insertable(e: nat)
      requires base.mark <= ticks && store.Shaped() && e < store.capacity
      reads this`base, this`ticks, this`due, store
    {
      && !store.Linked(e) && store.at[e] == Wrap32(store.deadline[e])
      && InWindow(store.deadline[e], Abs().time)
    }

    /** `insert_timeout`. The invariant is kept if the arrival time is within the longest
        duration of the frontier. */
    method InsertTimeout(e: nat)
      requires Sound() && e < store.capacity && Insertable(e)
      modifies this`pendedDelay, this`due, store`heap, store`heapPos
      ensures Sound() && SameLinks(old(store.heapPos), store.heapPos, e, store.capacity) && store.Linked(e)
      ensures old(Core()) && store.deadline[e] <= old(Abs()).frontier + DURATION_MAX ==> Core()
      ensures Abs() == if handleTickInProgress
                       then old(Abs()).(deadlines := old(Abs()).deadlines[e := store.deadline[e]])
                       else Insert(port, old(Abs()), e, store.deadline[e])
      ensures |store.heapPos| == store.capacity
      ensures !handleTickInProgress ==> WantsTick(port, Abs().deadlines, Abs().time, pendedDelay)
    {
      hide WantsTick;
      var currentTime := CurrentTime();
      SoundIsComparable();
      PushDeadline(e, currentTime);
      if !handleTickInProgress {
        Repend(currentTime);
      }
    }

    /** The insertion without the re-pending of the tick. */
    method PushDeadline(e: nat, currentTime: u32)
      requires Sound() && e < store.capacity && Insertable(e) && store.AllComparable(Abs().time)
      requires currentTime == Wrap32(Abs().time)
      modifies store`heap, store`heapPos
      ensures Sound() && SameLinks(old(store.heapPos), store.heapPos, e, store.capacity) && store.Linked(e)
      ensures old(Core()) && store.deadline[e] <= old(Abs()).frontier + DURATION_MAX ==> Core()
      ensures Abs() == old(Abs()).(deadlines := old(Abs()).deadlines[e := store.deadline[e]])
    {
      var criticalPoint := CriticalPoint(currentTime);
      store.WithinCapacity();
      var _ := store.HeapPush(e, criticalPoint, Abs().time);
      store.WithinCapacity();
      hide Heap.Valid, CriticalPoint, Heap.AllComparable;
    }

    /** `remove_timeout`. */
    method RemoveTimeout(e: nat)
      requires Core() && e < store.capacity
      modifies this`pendedDelay, this`due, store`heap, store`heapPos
      ensures Core() && SameLinks(old(store.heapPos), store.heapPos, e, store.capacity) && !store.Linked(e)
      ensures Abs() == if handleTickInProgress
                       then old(Abs()).(deadlines := old(Abs()).deadlines - {e})
                       else Remove(port, old(Abs()), e)
      ensures |store.heapPos| == store.capacity
      ensures !handleTickInProgress && e in old(Abs()).deadlines ==>
                WantsTick(port, Abs().deadlines, Abs().time, pendedDelay)
    {
      hide WantsTick;
      var currentTime := CurrentTime();
      SoundIsComparable();
      var found := TakeDeadline(e, currentTime);
      if found && !handleTickInProgress {
        Repend(currentTime);
      }
    }

    /** The removal without the re-pending of the tick. */
    method TakeDeadline(e: nat, currentTime: u32) returns (found: bool)
      requires Core() && e < store.capacity && store.AllComparable(Abs().time)
      requires currentTime == Wrap32(Abs().time)
      modifies store`heap, store`heapPos
      ensures Core() && SameLinks(old(store.heapPos), store.heapPos, e, store.capacity) && !store.Linked(e)
      ensures found == (e in old(Abs()).deadlines)
      ensures Abs() == old(Abs()).(deadlines := old(Abs()).deadlines - {e})
      ensures !found ==> Abs() == old(Abs())
    {
      var criticalPoint := CriticalPoint(currentTime);
      found := store.Remove(e, criticalPoint, Abs().time);
      hide Heap.Valid, CriticalPoint, Heap.AllComparable;
      assert !found ==> old(Abs()).deadlines - {e} == old(Abs()).deadlines;
    }

    /** `set_expiration_after`. */
    method SetExpirationAfter(e: nat, duration: u32)
      requires Core() && e < store.capacity && !store.Linked(e)
      modifies store`at, store`deadline
      ensures Core() && Abs() == old(Abs())
      ensures |store.at| == |store.deadline| == store.capacity
      ensures store.deadline[e] == Abs().time + duration && store.at[e] == Wrap32(store.deadline[e])
      ensures forall f :: 0 <= f < store.capacity && f != e ==> store.at[f] == old(store.at[f])
    {
      var currentTime := CurrentTime();
      Add32Exact(Abs().time, duration);
      ModSmall(duration, TWO32);
      store.SetAt(e, Add32(currentTime, duration), Abs().time + duration);
    }

    /** `adjust_expiration`. */
    method AdjustExpiration(e: nat, duration: u32)
      requires Core() && e < store.capacity && !store.Linked(e) && store.at[e] == Wrap32(store.deadline[e])
      modifies store`at, store`deadline
      ensures Core() && Abs() == old(Abs())
      ensures |store.at| == |store.deadline| == store.capacity
      ensures store.deadline[e] == old(store.deadline[e]) + duration && store.at[e] == Wrap32(store.deadline[e])
      ensures forall f :: 0 <= f < store.capacity && f != e ==> store.at[f] == old(store.at[f])
    {
      Add32Exact(store.deadline[e], duration);
      ModSmall(duration, TWO32);
      store.SetAt(e, Add32(store.at[e], duration), store.deadline[e] + duration);
    }

    /** Arms a timeout that is not linked to expire after `delay`. */
    method Arm(e: nat, delay: u32)
      requires Core() && e < store.capacity && !store.Linked(e) && !handleTickInProgress
      requires delay <= DURATION_MAX + USER_HEADROOM
      modifies this`pendedDelay, this`due, store
      ensures Sound() && SameLinks(old(store.heapPos), store.heapPos, e, store.capacity) && store.Linked(e)
      ensures old(Abs()).time + delay <= old(Abs()).frontier + DURATION_MAX ==> Core()
      ensures Abs() == Insert(port, old(Abs()), e, old(Abs()).time + delay)
      ensures |store.at| == store.capacity
      ensures forall f :: 0 <= f < store.capacity && f != e ==> store.at[f] == old(store.at[f])
    {
      hide Core, Sound, Abs, Wrap32, PendDelay, Pend, SameLinks, Inv;
      CoreIsSound();
      SetExpirationAfter(e, delay);
      CoreIsSound();
      InsertTimeout(e);
    }

    lemma CoreIsSound()
      requires Core()
      ensures Sound()
    {
    }

    /** `set_at_raw` on a timeout that is not linked. */
    method StoreDelay(e: nat, raw: u32)
      requires Core() && e < store.capacity && !store.Linked(e)
      modifies store`at, store`deadline
      ensures Core() && Abs() == old(Abs()) && store.at == old(store.at)[e := raw]
    {
      store.SetAt(e, raw, 0);
    }

    /** `Timeout::saturating_duration_until_timeout`. */
    method RemainingDelay(e: nat) returns (d: u32)
      requires Core() && e < store.capacity && store.Linked(e)
      ensures e in Abs().deadlines && d == Positive(Abs().deadlines[e] - Abs().time)
      ensures d <= DURATION_MAX + USER_HEADROOM
    {
      var currentTime := CurrentTime();
      SoundIsComparable();
      DurationsAreExact(store.deadline[e], Abs().time);
      d := DurationUntil(store.at[e], currentTime);
    }

    lemma LinkedIffDeadline(e: nat)
      requires Core()
      ensures e in Abs().deadlines <==> e < |store.heapPos| && store.Linked(e)
    {
    }

    // ----- timers -----

    /** `start_timer`. A delay stored by `stop_timer` may exceed the longest duration: the
        timer is linked all the same, and the invariant survives if and only if its
        arrival time is within the longest duration of the frontier. */
    method StartTimer(i: nat)
      requires Valid() && i < timers
      modifies this`pendedDelay, this`due, this`active, store
      ensures Sound() && TimersMatch() && !handleTickInProgress
      ensures Valid() <==> (!old(active[i]) && old(store.at[i]) != BAD_DURATION32 ==>
                              old(Abs()).time + old(store.at[i]) <= old(Abs()).frontier + DURATION_MAX)
      ensures active == old(active)[i := true]
      ensures Abs() == if old(active[i]) || old(store.at[i]) == BAD_DURATION32 then old(Abs())
                       else Insert(port, old(Abs()), i, old(Abs()).time + old(store.at[i]))
      ensures forall j :: 0 <= j < store.capacity && j != i ==> store.at[j] == old(store.at[j])
    {
      hide Core, Sound, Abs, PendDelay;
      CoreIsSound();
      CoreHasInv();
      ghost var c := Abs();
      if active[i] {
        return;
      }
      var delay := store.at[i];
      if delay != BAD_DURATION32 {
        Arm(i, delay);
        BoundedByInv(port, c, i, c.time + delay);
        if Core() { CoreHasInv(); }
      }
      active := active[i := true];
    }

    /** `stop_timer`: captures the remaining delay. */
    method StopTimer(i: nat)
      requires Valid() && i < timers
      modifies this`pendedDelay, this`due, this`active, store
      ensures Valid() && active == old(active)[i := false]
      ensures Abs() == Remove(port, old(Abs()), i)
      ensures store.at[i] == if i in old(Abs()).deadlines then Positive(old(Abs()).deadlines[i] - old(Abs()).time)
                             else old(store.at[i])
      ensures forall j :: 0 <= j < store.capacity && j != i ==> store.at[j] == old(store.at[j])
    {
      hide Core, Sound, Abs, PendDelay, TimersOk, SameLinks, Positive, WantsTick;
      EveryTimerIsStored();
      ghost var pos, at, was := store.heapPos, store.at, active;
      SameLinksRefl(pos, i, store.capacity);
      UnlinkedTimerIsStored(i);
      LinkedIffDeadline(i);
      if store.Linked(i) {
        var delay := RemainingDelay(i);
        RemoveTimeout(i);
        StoreDelay(i, delay);
      }
      active := active[i := false];
      SettleTimer(was, active, period, timers, pos, store.heapPos, at, store.at, i);
    }

    /** `set_timer_delay`; `BAD_DURATION32` stands for no delay. */
    method SetTimerDelay(i: nat, delay: u32)
      requires Valid() && i < timers && IsDelay(delay)
      modifies this`pendedDelay, this`due, store
      ensures Valid()
      ensures Abs() == if active[i] && delay != BAD_DURATION32
                       then Insert(port, Remove(port, old(Abs()), i), i, old(Abs()).time + delay)
                       else Remove(port, old(Abs()), i)
      ensures !active[i] ==> store.at[i] == delay
      ensures forall j :: 0 <= j < store.capacity && j != i ==> store.at[j] == old(store.at[j])
    {
      hide Core, Sound, Abs, PendDelay, Wrap32;
      LinkedIffDeadline(i);
      if store.Linked(i) {
        RemoveTimeout(i);
      }
      if active[i] && delay != BAD_DURATION32 {
        FrontierIsAhead();
        Arm(i, delay);
      } else {
        StoreDelay(i, delay);
      }
    }

    lemma FrontierIsAhead()
      requires Core()
      ensures Abs().time <= Abs().frontier <= Abs().time + USER_HEADROOM
    {
    }

    /** `set_timer_period`: takes effect from the next expiry. */
    method SetTimerPeriod(i: nat, newPeriod: u32)
      requires Valid() && i < timers && IsDelay(newPeriod)
      modifies this`period
      ensures Valid() && Abs() == old(Abs()) && period == old(period)[i := newPeriod]
    {
      period := period[i := newPeriod];
    }

    // ----- expiry -----

    /** Takes the first timeout, which is due at `now`, out of the heap. */
    method TakeFirst(currentTime: u32, ghost now: int) returns (first: nat)
      requires Core() && TimersMatch() && store.heap != [] && store.AllComparable(now)
      requires currentTime == Wrap32(now)
      modifies store`heap, store`heapPos
      ensures Core() && first < store.capacity && !store.Linked(first) && TimersMatchExcept(first)
      ensures IsEarliest(old(Abs()).deadlines, first)
      ensures Abs() == old(Abs()).(deadlines := old(Abs()).deadlines - {first})
      ensures store.deadline[first] == old(Abs()).deadlines[first] && store.at[first] == Wrap32(store.deadline[first])
    {
      hide Heap.Valid, CriticalPoint, Heap.AllComparable, Wrap32, IsEarliest, Inv, Windowed, ImagesOf, TimersOk;
      FirstIsLinked();
      ghost var pos, c := store.heapPos, Abs();
      first := store.PopFirst(CriticalPoint(currentTime), now);
      UnlinkOne(pos, store.heapPos, store.at, store.deadline, first);
      TakeTimer(active, period, timers, pos, store.heapPos, store.at, first);
      FewerDeadlines(c, first);
    }

    lemma FirstIsLinked()
      requires store.Valid() && store.heap != [] && Images()
      ensures store.Shaped() && store.heap[0] < store.capacity && store.Linked(store.heap[0])
      ensures IsEarliest(store.Deadlines(), store.heap[0])
      ensures store.Deadlines()[store.heap[0]] == store.deadline[store.heap[0]]
      ensures store.at[store.heap[0]] == Wrap32(store.deadline[store.heap[0]])
    {
      HeadIsEarliest();
      store.WithinCapacity();
    }

    /** The callback of a timeout, with its application part left empty: re-arms a
        periodic timer from its own arrival time (`timer_timeout_handler`). `elapsed`
        ticks pass before it runs. */
    method Callback(e: nat, elapsed: nat)
      requires Core() && handleTickInProgress && MayPass(port, Abs(), elapsed)
      requires e < store.capacity && !store.Linked(e) && TimersMatchExcept(e)
      requires store.at[e] == Wrap32(store.deadline[e])
      requires Abs().time + elapsed - USER_HEADROOM - HARD_HEADROOM <= store.deadline[e] <= Abs().frontier
      modifies this`tickCount, this`ticks, this`pendedDelay, this`due, store
      ensures Core() && TimersMatch() && ticks == old(ticks) + elapsed
      ensures var dl := old(Abs()).deadlines + Rearmed(Periods(), e, old(store.deadline[e]));
              Abs() == Pass(old(Abs()), elapsed).(deadlines := dl)
    {
      hide Core, Sound, Abs, Wrap32, PendDelay, Pend, TimersOk, SameLinks, Inv, WantsTick;
      ghost var pos, at := store.heapPos, store.at;
      SameLinksRefl(pos, e, store.capacity);
      PeriodIsDelay(e);
      CorePassTicks(elapsed);
      if e < timers {
        if period[e] == BAD_DURATION32 {
          StoreDelay(e, BAD_DURATION32);
        } else {
          AdjustExpiration(e, period[e]);
          CoreIsSound();
          FrontierIsAhead();
          InsertTimeout(e);
        }
      }
      SettleTimer(active, active, period, timers, pos, store.heapPos, at, store.at, e);
    }

    /** The loop condition: the first timeout is due at `now`. */
    method FirstIsDue(currentTime: u32, ghost now: int) returns (due: bool)
      requires Core() && store.AllComparable(now) && currentTime == Wrap32(now)
      ensures !due ==> Quiescent(Abs().deadlines, now)
      ensures due ==> store.heap != [] && forall id :: IsEarliest(Abs().deadlines, id) ==> Abs().deadlines[id] <= now
    {
      HeadIsEarliest();
      if store.heap == [] {
        return false;
      }
      assert store.Comparable(store.heap[0], now) by { store.WithinCapacity(); }
      DurationsAreExact(store.deadline[store.heap[0]], now);
      var remaining := DurationUntil(store.at[store.heap[0]], currentTime);
      due := remaining == 0;
    }

    /** Between two iterations of the expiry loop: `c` is the clock at the mark. */
    ghost predicate InLoop(c: Clock, total: nat, log: seq<Fired>)
      reads this, store
    {
      && Core() && store.Shaped() && TimersMatch() && handleTickInProgress
      && c.mark == c.ticks == base.mark <= ticks <= c.ticks + total <= c.ticks + port.maxTickCount
      && Expiring(c, Periods(), total, log, Abs().deadlines)
      && Abs() == Pass(c.(deadlines := Abs().deadlines), ticks - c.ticks)
    }

    lemma InLoopIsComparable(c: Clock, total: nat, log: seq<Fired>)
      requires InLoop(c, total, log)
      ensures store.Shaped() && store.AllComparable(c.time)
    {
      InvBoundsWindow(c.(deadlines := Abs().deadlines));
      forall e | 0 <= e < store.capacity && store.heapPos[e] != HEAP_POS_NONE
        ensures store.Comparable(e, c.time)
      {
        assert e in Abs().deadlines;
      }
    }

    lemma PeriodsAreShort(x: nat)
      requires TimersMatchExcept(x)
      ensures forall id :: id in Periods() ==> Periods()[id] <= DURATION_MAX
    {
    }

    /** One iteration: the first timeout is due; it is taken out of the heap and its
        callback runs after `elapsed` more ticks. */
    method Expire(currentTime: u32, elapsed: nat, ghost c: Clock, ghost total: nat, ghost log: seq<Fired>)
      returns (ghost log': seq<Fired>)
      requires InLoop(c, total, log) && currentTime == Wrap32(c.time) && store.heap != []
      requires forall id :: IsEarliest(Abs().deadlines, id) ==> Abs().deadlines[id] <= c.time
      requires ticks + elapsed <= c.ticks + total
      modifies this`tickCount, this`ticks, this`pendedDelay, this`due, store
      ensures InLoop(c, total, log')
      ensures ticks == old(ticks) + elapsed
      ensures Work(Abs().deadlines, c.time, store.capacity) < Work(old(Abs()).deadlines, c.time, store.capacity)
    {
      hide Core, Abs, TimersMatch, TimersMatchExcept, IsEarliest, Expiring, Fires, Wrap32, Pass, MayPass;
      hide Heap.AllComparable, Work, Heap.Linked, Count;
      InLoopIsComparable(c, total, log);
      ghost var dl := Abs().deadlines;
      ghost var spent := ticks - c.ticks;
      var first := TakeFirst(currentTime, c.time);
      PeriodsAreShort(first);
      ExpiringStep(c, Periods(), total, log, dl, first, store.capacity);
      MayExpire(port, c, Periods(), total, log, dl, first, spent, elapsed);
      log' := log + [Fired(first, dl[first])];
      PassTwice(c, spent, elapsed, dl, dl - {first});
      PassTwice(c, spent, elapsed, dl - {first}, Rearm(dl, Periods(), first));
      assert (dl - {first}) + Rearmed(Periods(), first, dl[first]) == Rearm(dl, Periods(), first);
      Callback(first, elapsed);
      CoreHasInv();
    }

    /** `handle_tick`, in a system whose timers have no application callbacks.
        `delays[k]` ticks pass before the k-th callback runs. Whatever they are, what
        fires is decided by the time of the mark, and so is the delay until the
        next tick. */
    method HandleTick(delays: seq<nat>) returns (ghost log: seq<Fired>)
      requires Valid() && MayPass(port, Abs().(mark := Abs().ticks), Sum(delays))
      requires NoZeroPeriodDue(Abs().deadlines, Periods(), Abs().time)
      modifies this`lastTickCount, this`lastTickTime, this`lastTickSysTime, this`frontierGap, this`base
      modifies this`handleTickInProgress, this`tickCount, this`ticks, this`pendedDelay, this`due, store
      ensures Valid() && old(ticks) <= ticks <= old(ticks) + Sum(delays)
      ensures Fires(old(Abs()).deadlines, Periods(), old(Abs()).time, log, Abs().deadlines)
      ensures Quiescent(Abs().deadlines, old(Abs()).time)
      ensures Abs() == Runs.Ticked(port, old(Abs()), Abs().deadlines, ticks - old(ticks))
      ensures WantsTick(port, Abs().deadlines, old(Abs()).time, pendedDelay)
    {
      hide WantsTick;
      hide Core, Abs, TimersMatch, Fires, Pass, MayPass, Heap.AllComparable, Wrap32, Quiescent;
      hide Sound, Inv, NoZeroPeriodDue, PendDelay, Positive, Sum, Heap.Shaped;
      MarkTick();
      CoreHasInv();
      ghost var c := Abs();
      var currentTime := lastTickTime;
      StartsExpiring(port, c, Periods(), Sum(delays));
      handleTickInProgress := true;
      log := ExpiryLoop(currentTime, delays, c);
      InLoopIsComparable(c, Sum(delays), log);
      handleTickInProgress := false;
      CoreIsSound();
      RependAt(currentTime, c.time);
    }

    method ExpiryLoop(currentTime: u32, delays: seq<nat>, ghost c: Clock) returns (ghost log: seq<Fired>)
      requires InLoop(c, Sum(delays), []) && ticks == c.ticks && currentTime == Wrap32(c.time)
      modifies this`tickCount, this`ticks, this`pendedDelay, this`due, store
      ensures InLoop(c, Sum(delays), log) && Quiescent(Abs().deadlines, c.time)
    {
      hide Core, Abs, TimersMatch, Expiring, Pass, MayPass, Heap.AllComparable, Work, Wrap32, Quiescent, IsEarliest;
      ghost var total := Sum(delays);
      log := [];
      var k := 0;
      var remaining := true;
      assert delays[0..] == delays;
      while remaining
        invariant k <= |delays| && ticks + Sum(delays[k..]) == c.ticks + total
        invariant InLoop(c, total, log)
        invariant !remaining ==> Quiescent(Abs().deadlines, c.time)
        decreases remaining, Work(Abs().deadlines, c.time, store.capacity)
      {
        InLoopIsComparable(c, total, log);
        remaining := FirstIsDue(currentTime, c.time);
        if remaining {
          var elapsed := if k < |delays| then delays[k] else 0;
          log := Expire(currentTime, elapsed, c, total, log);
          k := if k < |delays| then k + 1 else k;
        }
      }
    }

    method CorePassTicks(n: nat)
      requires Core() && MayPass(port, Abs(), n)
      modifies this`tickCount, this`ticks
      ensures Core() && Abs() == Pass(old(Abs()), n) && ticks == old(ticks) + n
    {
      ModAdd(ticks, n, port.maxTickCount + 1);
      ticks := ticks + n;
      tickCount := PortCount(port.maxTickCount, tickCount + n);
    }
  }

  /** A timeout linked under the invariant is within the longest duration of the
      frontier. */
  lemma BoundedByInv(p: Port, c: Clock, id: nat, deadline: int)
    ensures Inv(Insert(p, c, id, deadline)) ==> deadline <= c.frontier + DURATION_MAX
  {
    assert id in Insert(p, c, id, deadline).deadlines;
  }

}
