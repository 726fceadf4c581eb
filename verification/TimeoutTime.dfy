/** 32-bit event times (`timeout.rs`) and their relation to unbounded time. */
module TimeoutTime {
  import opened Num
  import opened Words
  import opened Wrappers

  const USER_HEADROOM: nat := 0x2000_0000
  const HARD_HEADROOM: nat := 0x4000_0000
  /** `Duration::MAX.as_micros()`: `Duration` is backed by a 32-bit signed integer. */
  const DURATION_MAX: nat := 0x7fff_ffff
  /** The null value that no conversion from a duration returns. */
  const BAD_DURATION32: u32 := U32_MAX

  type Duration = d: int | -0x8000_0000 <= d <= 0x7fff_ffff

  /** `time32_from_duration`; `None` stands for `BadParam`. */
  function FromDuration(d: Duration): (t: Option<u32>)
    ensures t.Some? <==> d >= 0
    ensures t.Some? ==> t.value == d && t.value != BAD_DURATION32
  {
    if d >= 0 then Some(d) else None
  }

  /** `time32_from_neg_duration`: zero minus the duration cast to 32 bits. */
  function FromNegDuration(d: Duration): (t: Option<u32>)
    ensures t.Some? <==> d <= 0
    ensures t.Some? ==> t.value == -(d as int) && t.value != BAD_DURATION32
  {
    if d > 0 then None else
      NegationIsExact(d);
      Some(Sub32(0, Wrap32(d)))
  }

  lemma NegationIsExact(d: Duration)
    requires d <= 0
    ensures Sub32(0, Wrap32(d)) == -(d as int)
  {
    ModSub(0, d, TWO32);
    ModSmall(-(d as int), TWO32);
  }

  /** `critical_point`. */
  function CriticalPoint(now: u32): (c: u32) {
    Sub32(now, HARD_HEADROOM + USER_HEADROOM)
  }

  /** The comparator of the timeout heap. */
  predicate Before(x: u32, y: u32, criticalPoint: u32) {
    Sub32(x, criticalPoint) < Sub32(y, criticalPoint)
  }

  /** `saturating_duration_until_timeout`. */
  function DurationUntil(at: u32, now: u32): (d: u32) {
    SatSub(Sub32(at, CriticalPoint(now)), HARD_HEADROOM + USER_HEADROOM)
  }

  /** `saturating_duration_before_timeout_exhausting_user_headroom`. */
  function DurationBeforeHardZone(at: u32, now: u32): (d: u32) {
    SatSub(Sub32(at, CriticalPoint(now)), HARD_HEADROOM)
  }

  /** The true arrival time `deadline` lies between the critical point and the far
      end of the user headroom at the true time `now`. */
  predicate InWindow(deadline: int, now: int) {
    now - USER_HEADROOM - HARD_HEADROOM <= deadline <= now + DURATION_MAX + USER_HEADROOM
  }

  function Positive(x: int): (p: nat) {
    if x < 0 then 0 else x
  }

  /** The zones around the current time fill the 32-bit range exactly, so inside
      them the distance from the critical point is the true one. */
  lemma DistanceIsExact(deadline: int, now: int)
    ensures InWindow(deadline, now) <==>
            Sub32(Wrap32(deadline), CriticalPoint(Wrap32(now))) == deadline - (now - USER_HEADROOM - HARD_HEADROOM)
  {
    var c := now - USER_HEADROOM - HARD_HEADROOM;
    ModSub(now, HARD_HEADROOM + USER_HEADROOM, TWO32);
    ModSub(deadline, c, TWO32);
    if InWindow(deadline, now) { ModSmall(deadline - c, TWO32); }
  }

  /** The wrapping comparator orders any two linked timeouts by their unbounded
      arrival times. */
  lemma BeforeIsTrueOrder(d: int, e: int, now: int)
    requires InWindow(d, now) && InWindow(e, now)
    ensures Before(Wrap32(d), Wrap32(e), CriticalPoint(Wrap32(now))) <==> d < e
  {
    DistanceIsExact(d, now);
    DistanceIsExact(e, now);
  }

  /** The saturating durations are the true ones, cut off at zero. */
  lemma DurationsAreExact(deadline: int, now: int)
    requires InWindow(deadline, now)
    ensures DurationUntil(Wrap32(deadline), Wrap32(now)) == Positive(deadline - now)
    ensures DurationBeforeHardZone(Wrap32(deadline), Wrap32(now)) == Positive(deadline + USER_HEADROOM - now)
  {
    DistanceIsExact(deadline, now);
  }

  /** One step outside the window the comparator is wrong: a timeout just past the
      critical point sorts after one that is not yet due. */
  lemma PastCriticalPointSortsLast(now: int)
    ensures var late := now - USER_HEADROOM - HARD_HEADROOM - 1;
            && !InWindow(late, now)
            && Before(Wrap32(now + 1), Wrap32(late), CriticalPoint(Wrap32(now)))
  {
    var c := now - USER_HEADROOM - HARD_HEADROOM;
    ModSub(now, HARD_HEADROOM + USER_HEADROOM, TWO32);
    DistanceIsExact(now + 1, now);
    ModSub(c - 1, c, TWO32);
  }

  /** `duration_since_last_tick`, with the port's `MAX_TICK_COUNT`. */
  function ElapsedTicks(maxTickCount: u32, lastTickCount: u32, tickCount: u32): (e: u32)
    requires lastTickCount <= maxTickCount && tickCount <= maxTickCount
  {
    if maxTickCount == U32_MAX || tickCount >= lastTickCount then
      Sub32(tickCount, lastTickCount)
    else
      DifferenceFits(maxTickCount, lastTickCount, tickCount);
      Sub32(tickCount, lastTickCount) - (U32_MAX - maxTickCount)
  }

  lemma DifferenceFits(max: u32, last: u32, cur: u32)
    requires cur < last <= max
    ensures Sub32(cur, last) == cur - last + TWO32 >= U32_MAX - max
  {
    DivModUnique(cur - last, TWO32, -1, cur - last + TWO32);
  }

  /** The port's counter reading after `ticks` ticks. */
  function PortCount(maxTickCount: u32, ticks: nat): (c: u32)
    ensures c <= maxTickCount
  {
    ModBound(ticks, maxTickCount + 1);
    ticks % (maxTickCount + 1)
  }

  /** The measured number of ticks between two readings is the true one if and only
      if at most `MAX_TICK_COUNT` ticks have passed, for every `MAX_TICK_COUNT`. */
  lemma ElapsedIsExact(max: u32, mark: nat, now: nat)
    requires mark <= now
    ensures ElapsedTicks(max, PortCount(max, mark), PortCount(max, now)) == now - mark <==> now - mark <= max
  {
    var m := max + 1;
    var a, b := PortCount(max, mark), PortCount(max, now);
    var e := ElapsedTicks(max, a, b);
    assert e == if b >= a then b - a else b - a + m by {
      if b >= a { ModSmall(b - a, TWO32); } else { DifferenceFits(max, a, b); }
    }
    ModSub(now, mark, m);
    if b >= a { ModSmall(b - a, m); } else { DivModUnique(b - a, m, -1, b - a + m); }
    assert e == (now - mark) % m;
    if now - mark <= max { ModSmall(now - mark, m); }
  }
}
