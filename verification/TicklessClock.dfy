/** The exact rational clock that both tickless algorithms approximate, and the
    proof that the derived `max_timeout` is the largest safe one. */
module TicklessClock {
  import opened Num
  import opened Words
  import opened Wrappers
  import opened TicklessCfg

  /** Whole microseconds in `e` hardware ticks. */
  ghost function OsTime(cfg: Cfg, e: nat): (t: nat)
    requires cfg.Numer() > 0
  {
    QuotientNonNegative(e * cfg.division, cfg.Numer());
    e * cfg.division / cfg.Numer()
  }

  /** Hardware ticks needed before `t` whole microseconds have passed. */
  ghost function HwTime(cfg: Cfg, t: nat): (e: nat)
    requires cfg.division > 0
  {
    QuotientNonNegative(t * cfg.Numer() + cfg.division - 1, cfg.division);
    CeilDiv(t * cfg.Numer(), cfg.division)
  }

  /** `HwTime(t)` is the earliest hardware tick at which the clock reads at least `t`. */
  lemma EarliestTick(cfg: Cfg, e: nat, t: nat)
    requires cfg.Valid()
    ensures t <= OsTime(cfg, e) <==> HwTime(cfg, t) <= e
  {
    FloorAdjoint(e * cfg.division, cfg.Numer(), t);
    CeilAdjoint(t * cfg.Numer(), cfg.division, e);
  }

  lemma ClockIsMonotone(cfg: Cfg, e: nat, e': nat)
    requires cfg.Valid() && e <= e'
    ensures OsTime(cfg, e) <= OsTime(cfg, e')
  {
    EarliestTick(cfg, e, OsTime(cfg, e));
    EarliestTick(cfg, e', OsTime(cfg, e));
  }

  // ----- max_timeout, stateless -----

  /** The requirement that `TicklessCfg::new` places on a timeout: starting from the
      reference `refHw`, waiting for `timeout` microseconds and then being late by
      the headroom does not make the OS tick count revolve. */
  ghost predicate StatelessSafe(cfg: Cfg, h: nat, refHw: nat, timeout: nat)
    requires cfg.Valid()
  {
    var t := OsTime(cfg, refHw);
    OsTime(cfg, HwTime(cfg, t + timeout) + h) <= t + cfg.MaxTickCount()
  }

  /** The late interrupt, in units of `1 / division` hardware tick. */
  lemma StatelessSafeIff(cfg: Cfg, h: nat, t: nat, timeout: nat, max: nat)
    requires cfg.Valid()
    ensures OsTime(cfg, HwTime(cfg, t + timeout) + h) <= t + max <==>
            HwTime(cfg, t + timeout) * cfg.division + h * cfg.division < (t + max + 1) * cfg.Numer()
  {
    var late := HwTime(cfg, t + timeout) + h;
    assert late * cfg.division == HwTime(cfg, t + timeout) * cfg.division + h * cfg.division;
    FloorAdjoint(late * cfg.division, cfg.Numer(), t + max + 1);
  }

  /** Rounding up to whole hardware ticks adds less than one tick. */
  lemma CeilSlack(x: nat, d: nat)
    requires d > 0
    ensures x <= CeilDiv(x, d) * d <= x + d - 1
  {
    var c := CeilDiv(x, d);
    FloorAdjoint(x + d - 1, d, c);
    FloorAdjoint(x + d - 1, d, c + 1);
    assert (c + 1) * d == c * d + d;
  }

  /** For every configuration that chooses the stateless algorithm, a timeout is
      safe from every reference point if and only if it does not exceed
      `max_timeout`. The origin is a worst reference point, because there the
      periods align. */
  lemma StatelessMaxTimeoutIsLargest(o: Options, timeout: nat)
    requires New(o).Success? && New(o).value.algorithm.Stateless?
    ensures var cfg := New(o).value;
            cfg.Valid() &&
            (timeout <= cfg.maxTimeout <==> forall refHw: nat :: StatelessSafe(cfg, o.hwHeadroomTicks, refHw, timeout))
  {
    NewIsExact(o);
    var cfg := New(o).value;
    var h := o.hwHeadroomTicks;
    var d, n, max := cfg.division, cfg.Numer(), cfg.MaxTickCount();
    TimeoutBoundIff(cfg, h, max, timeout);
    if timeout <= cfg.maxTimeout {
      forall refHw: nat
        ensures StatelessSafe(cfg, h, refHw, timeout)
      {
        StatelessSafeFrom(cfg, h, refHw, timeout);
      }
    } else {
      UnsafeAtOrigin(cfg, h, timeout);
      assert !StatelessSafe(cfg, h, 0, timeout);
    }
  }

  /** The worst case over all roundings of a timeout stays within the OS period. */
  ghost predicate WorstCaseFits(cfg: Cfg, h: nat, max: nat, timeout: nat) {
    timeout * cfg.Numer() + cfg.division - 1 + h * cfg.division < max * cfg.Numer() + cfg.Numer()
  }

  /** `timeout` is below the computed bound iff its worst case stays in range. */
  lemma TimeoutBoundIff(cfg: Cfg, h: nat, max: nat, timeout: nat)
    requires cfg.Valid()
    ensures var r := Ratio(cfg.Numer(), cfg.division);
            timeout >= 1 || StatelessMaxTimeout(r, h, max) >= 1 ==>
              (timeout <= StatelessMaxTimeout(r, h, max) <==> WorstCaseFits(cfg, h, max, timeout))
  {
    var r := Ratio(cfg.Numer(), cfg.division);
    FloorAdjoint(OsBound(r, h, max), cfg.Numer(), timeout);
    FloorAdjoint(OsBound(r, h, max), cfg.Numer(), 1);
    if timeout >= 1 { MulMono(1, timeout, cfg.Numer()); }
  }

  lemma StatelessSafeFrom(cfg: Cfg, h: nat, refHw: nat, timeout: nat)
    requires cfg.Valid() && WorstCaseFits(cfg, h, cfg.MaxTickCount(), timeout)
    ensures StatelessSafe(cfg, h, refHw, timeout)
  {
    var t := OsTime(cfg, refHw);
    LateByRounding(cfg.Numer(), cfg.division, h, t, timeout, cfg.MaxTickCount());
    StatelessSafeIff(cfg, h, t, timeout, cfg.MaxTickCount());
  }

  lemma LateByRounding(n: nat, d: nat, h: nat, t: nat, timeout: nat, max: nat)
    requires d > 0 && timeout * n + d - 1 + h * d < max * n + n
    ensures CeilDiv((t + timeout) * n, d) * d + h * d < (t + max + 1) * n
  {
    CeilSlack((t + timeout) * n, d);
    Expand(t, timeout, n);
    Expand(t, max + 1, n);
    Expand(max, 1, n);
  }

  lemma UnsafeAtOrigin(cfg: Cfg, h: nat, timeout: nat)
    requires cfg.Valid() && cfg.Aligned() && !WorstCaseFits(cfg, h, cfg.MaxTickCount(), timeout)
    ensures !StatelessSafe(cfg, h, 0, timeout)
  {
    var n, max := cfg.Numer(), cfg.MaxTickCount();
    DivModUnique(0 * cfg.division, n, 0, 0);
    StatelessSafeIff(cfg, h, 0, timeout, max);
    Expand(max, 1, n);
    RoundedToPeriod(timeout * n, cfg.division, h, cfg.HwMaxTickCount() + 1);
  }

  /** Against a bound that is a whole number of hardware ticks, rounding up first
      makes no difference. */
  lemma RoundedToPeriod(x: nat, d: nat, h: nat, k: nat)
    requires d > 0 && x + d - 1 + h * d >= k * d
    ensures CeilDiv(x, d) * d + h * d >= k * d
  {
    var c := CeilDiv(x, d);
    CeilSlack(x, d);
    Expand(c, h, d);
    if c + h < k {
      MulMono(c + h, k - 1, d);
      Expand(k, -1, d);
    } else {
      MulMono(k, c + h, d);
    }
  }

  // ----- max_timeout, stateful -----

  /** The requirement that `TicklessCfg::new` places on a timeout of the stateful
      algorithm, whose reference may lie `sub / division` past a hardware tick:
      neither the hardware tick count nor the OS tick count revolves. */
  ghost predicate StatefulSafe(cfg: Cfg, h: nat, sub: nat, timeout: nat)
    requires cfg.Numer() > 0 && cfg.division > 0
  {
    var n, d := cfg.Numer(), cfg.division;
    var late := CeilDiv(sub + timeout * n, d) + h;
    late <= U32_MAX && (late * d - sub) / n <= U32_MAX
  }

  /** For every configuration that chooses the stateful algorithm, a positive
      timeout is safe at every subtick offset if and only if it does not exceed
      `max_timeout`. */
  lemma StatefulMaxTimeoutIsLargest(o: Options, timeout: nat)
    requires New(o).Success? && New(o).value.algorithm.Stateful?
    ensures var cfg := New(o).value;
            cfg.Valid() &&
            (timeout <= cfg.maxTimeout <==>
             forall sub: nat :: sub < cfg.division ==> StatefulSafe(cfg, o.hwHeadroomTicks, sub, timeout))
  {
    NewIsExact(o);
    var cfg := New(o).value;
    var h := o.hwHeadroomTicks;
    StatefulBoundIff(cfg, h, timeout);
    if timeout <= cfg.maxTimeout {
      forall sub: nat | sub < cfg.division
        ensures StatefulSafe(cfg, h, sub, timeout)
      {
        StatefulSafeAt(cfg, h, sub, timeout);
      }
    } else if !HwWorstCaseFits(cfg, h, timeout) {
      HwUnsafeAtLastSubtick(cfg, h, timeout);
    } else {
      var sub := UnluckySubtick(cfg, h, timeout);
      assert !StatefulSafe(cfg, h, sub, timeout);
    }
  }

  ghost predicate HwWorstCaseFits(cfg: Cfg, h: u32, timeout: nat) {
    timeout * cfg.Numer() + cfg.division - 1 <= (U32_MAX - h) * cfg.division
  }

  lemma StatefulBoundIff(cfg: Cfg, h: u32, timeout: nat)
    requires cfg.Valid()
    ensures var r := Ratio(cfg.Numer(), cfg.division);
            timeout >= 1 || StatefulMaxTimeout(r, h) >= 1 ==>
              (timeout <= StatefulMaxTimeout(r, h) <==>
               HwWorstCaseFits(cfg, h, timeout) && WorstCaseFits(cfg, h, U32_MAX, timeout))
  {
    var r := Ratio(cfg.Numer(), cfg.division);
    var a, b := HwBound(r, h), OsBound(r, h, U32_MAX);
    FloorAdjoint(Min(a, b), cfg.Numer(), timeout);
    FloorAdjoint(Min(a, b), cfg.Numer(), 1);
    if timeout >= 1 { MulMono(1, timeout, cfg.Numer()); }
  }

  lemma StatefulSafeAt(cfg: Cfg, h: u32, sub: nat, timeout: nat)
    requires cfg.Valid() && sub < cfg.division
    requires HwWorstCaseFits(cfg, h, timeout) && WorstCaseFits(cfg, h, U32_MAX, timeout)
    ensures StatefulSafe(cfg, h, sub, timeout)
  {
    hide CeilDiv, Cfg.Numer;
    var d, n := cfg.division, cfg.Numer();
    LateInRange(n, d, h, sub, timeout * n, CeilDiv(sub + timeout * n, d));
  }

  lemma LateInRange(n: nat, d: nat, h: u32, sub: nat, x: nat, c: nat)
    requires n > 0 && sub < d && c == CeilDiv(sub + x, d)
    requires x + d - 1 <= (U32_MAX - h) * d && x + d - 1 + h * d < U32_MAX * n + n
    ensures c + h <= U32_MAX && ((c + h) * d - sub) / n <= U32_MAX
  {
    CeilAdjoint(sub + x, d, U32_MAX - h);
    CeilSlack(sub + x, d);
    hide CeilDiv;
    Expand(c, h, d);
    Expand(U32_MAX, 1, n);
    FloorAdjoint((c + h) * d - sub, n, U32_MAX + 1);
  }

  lemma HwUnsafeAtLastSubtick(cfg: Cfg, h: u32, timeout: nat)
    requires cfg.Valid() && !HwWorstCaseFits(cfg, h, timeout)
    ensures !StatefulSafe(cfg, h, cfg.division - 1, timeout)
  {
    CeilAdjoint(cfg.division - 1 + timeout * cfg.Numer(), cfg.division, U32_MAX - h);
  }

  /** At some subtick offset rounding up loses all but `1 / division` of a tick. */
  lemma UnluckySubtick(cfg: Cfg, h: u32, timeout: nat) returns (sub: nat)
    requires cfg.Valid() && !WorstCaseFits(cfg, h, U32_MAX, timeout)
    ensures sub < cfg.division && !StatefulSafe(cfg, h, sub, timeout)
  {
    var x := timeout * cfg.Numer();
    sub := (1 - x) % cfg.division;
    RoundsFromOne(x, cfg.division);
    var c := CeilDiv(sub + x, cfg.division);
    hide CeilDiv, Cfg.Numer, Cfg.Valid;
    LateRevolves(x, cfg.division, h, sub, c, cfg.Numer());
  }

  lemma LateRevolves(x: nat, d: nat, h: nat, sub: nat, c: nat, n: nat)
    requires n > 0 && c * d == sub + x + d - 1
    requires x + d - 1 + h * d >= U32_MAX * n + n
    ensures ((c + h) * d - sub) / n > U32_MAX
  {
    Expand(c, h, d);
    FloorAdjoint((c + h) * d - sub, n, U32_MAX + 1);
  }

  /** The offset that leaves `1 / d` of a tick loses the rest of it to rounding. */
  lemma RoundsFromOne(x: int, d: nat)
    requires d > 0 && x >= 0
    ensures 0 <= (1 - x) % d < d && CeilDiv((1 - x) % d + x, d) * d == (1 - x) % d + x + d - 1
  {
    var sub, k := (1 - x) % d, (1 - x) / d;
    assert 1 - x == d * k + sub;
    Expand(1, -k, d);
    DivModUnique(sub + x + d - 1, d, 1 - k, 0);
  }

  // ----- options without a safe timeout -----

  /** The timeout is safe from every reference point of the chosen algorithm. */
  ghost predicate SafeEverywhere(cfg: Cfg, h: u32, timeout: nat)
    requires cfg.Valid()
  {
    match cfg.algorithm
    case Stateless(_, _) => forall refHw: nat :: StatelessSafe(cfg, h, refHw, timeout)
    case Stateful => forall sub: nat :: sub < cfg.division ==> StatefulSafe(cfg, h, sub, timeout)
  }

  /** One microsecond is safe everywhere if and only if the computed bound admits it. */
  lemma OneMicrosecondIff(cfg: Cfg, h: u32)
    requires cfg.Valid()
    ensures SafeEverywhere(cfg, h, 1) <==> LongestTimeout(cfg, h) >= 1
  {
    match cfg.algorithm
    case Stateless(_, max) =>
      TimeoutBoundIff(cfg, h, max, 1);
      if LongestTimeout(cfg, h) >= 1 {
        forall refHw: nat ensures StatelessSafe(cfg, h, refHw, 1) { StatelessSafeFrom(cfg, h, refHw, 1); }
      } else {
        UnsafeAtOrigin(cfg, h, 1);
        assert !StatelessSafe(cfg, h, 0, 1);
      }
    case Stateful =>
      StatefulBoundIff(cfg, h, 1);
      if LongestTimeout(cfg, h) >= 1 {
        forall sub: nat | sub < cfg.division ensures StatefulSafe(cfg, h, sub, 1) { StatefulSafeAt(cfg, h, sub, 1); }
      } else if !HwWorstCaseFits(cfg, h, 1) {
        HwUnsafeAtLastSubtick(cfg, h, 1);
      } else {
        var sub := UnluckySubtick(cfg, h, 1);
        assert !StatefulSafe(cfg, h, sub, 1);
      }
  }

  /** `TicklessCfg::new` rejects a usable rate with `OSMaxTimeoutTooLow` if and only if
      even one microsecond is unsafe from some reference point. */
  lemma MaxTimeoutTooLowIff(o: Options)
    ensures New(o) == Failure(OSMaxTimeoutTooLow) <==>
            Rate(o).Some? && Rate(o).value.Valid() && !SafeEverywhere(Rate(o).value, o.hwHeadroomTicks, 1)
  {
    NewIsRateWithTimeout(o);
    if Rate(o).Some? { OneMicrosecondIff(Rate(o).value, o.hwHeadroomTicks); }
  }

  /** Exactly which options `TicklessCfg::new` accepts: positive frequencies below 2^32
      hardware ticks per microsecond whose reduced denominator fits 64 bits, and for
      which one microsecond is a safe timeout. */
  lemma NewAcceptsIff(o: Options)
    ensures New(o).Success? <==>
            && o.hwFreqNum != 0 && o.hwFreqDenom != 0
            && o.hwFreqNum < TWO32 * (o.hwFreqDenom * 1_000_000)
            && o.hwFreqDenom * 1_000_000 <= U64_MAX * Gcd(o.hwFreqNum, o.hwFreqDenom * 1_000_000)
            && Rate(o).Some? && Rate(o).value.Valid() && SafeEverywhere(Rate(o).value, o.hwHeadroomTicks, 1)
  {
    NewErrors(o);
    NewIsRateWithTimeout(o);
    MaxTimeoutTooLowIff(o);
    hide New, Rate, SafeEverywhere, Cfg.Valid, Gcd, LongestTimeout;
  }
}
