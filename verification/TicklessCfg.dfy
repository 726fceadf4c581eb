/** Parameters of the tickless timing algorithm (`tickless.rs`, `TicklessCfg`). */
module TicklessCfg {
  import opened Num
  import opened Words
  import opened Wrappers

  datatype Options = Options(
    hwFreqNum: u64,
    hwFreqDenom: u64,
    hwHeadroomTicks: u32,
    forceFullHwPeriod: bool,
    resettable: bool)

  datatype CfgError =
    | FreqNumZero
    | FreqDenomZero
    | FreqTooHigh
    | InternalOverflow
    | OSMaxTimeoutTooLow

  datatype Algorithm =
    | Stateless(hwMaxTickCount: u32, maxTickCount: u32)
    | Stateful

  /** One microsecond is `ticksPerMicro + subticksPerMicro / division` hardware ticks. */
  datatype Cfg = Cfg(
    ticksPerMicro: u32,
    subticksPerMicro: u64,
    algorithm: Algorithm,
    division: u64,
    maxTimeout: u32)
  {
    function HwMaxTickCount(): (m: u32) {
      match algorithm
      case Stateless(hwMax, _) => hwMax
      case Stateful => U32_MAX
    }

    function MaxTickCount(): (m: u32) {
      match algorithm
      case Stateless(_, max) => max
      case Stateful => U32_MAX
    }

    /** Hardware ticks per microsecond, in units of `1 / division` tick. */
    function Numer(): (n: nat) {
      ticksPerMicro * division + subticksPerMicro
    }

    /** What both algorithms need of their parameters. */
    ghost predicate Valid() {
      && subticksPerMicro < division
      && Numer() > 0
      && Gcd(Numer(), division) == 1
      && HwMaxTickCount() > 0 && MaxTickCount() > 0
      && 1 <= maxTimeout
      && (algorithm.Stateless? ==> Aligned())
    }

    /** The hardware period and the OS period span the same time. */
    ghost predicate Aligned() {
      (HwMaxTickCount() + 1) * division == (MaxTickCount() + 1) * Numer()
    }
  }

  /** The hardware ticks in a microsecond, as the fraction the options describe. */
  function TicksPerMicro(o: Options): (r: Ratio) {
    Ratio(o.hwFreqNum, o.hwFreqDenom * 1_000_000)
  }

  /** The two periods at which hardware ticks and OS ticks line up. */
  datatype Periods = Periods(hw: nat, os: nat)

  function GlobalPeriods(r: Ratio): (p: Periods)
    requires r.denom > 0
  {
    var sub := r.numer % r.denom;
    if sub == 0 then
      Periods(r.numer / r.denom, 1)
    else
      GcdPositive(sub, r.denom);
      var g := Gcd(sub, r.denom);
      Periods(r.numer / g, r.denom / g)
  }

  /** The condition under which the stateless algorithm is chosen. */
  predicate StatelessApplies(p: Periods, forceFullHwPeriod: bool, resettable: bool)
    requires p.hw > 0
  {
    && p.hw <= TWO32
    && p.os <= TWO32
    && (p.hw <= TWO31 || p.os > 1)
    && (p.os <= TWO31 || p.hw > 1)
    && (!forceFullHwPeriod || (TWO32 % p.hw == 0 && p.hw >= p.os))
    && !resettable
  }

  function Repeat(p: Periods): (k: nat)
    requires p.hw > 0 && p.os > 0
  {
    Min(TWO32 / p.hw, TWO32 / p.os)
  }

  /** The largest timeout whose late interrupt cannot make the OS tick count
      revolve, for the ratio `r` and the headroom `h`. */
  function OsBound(r: Ratio, h: nat, maxTickCount: nat): (b: nat)
    requires r.denom > 0 && r.numer > 0
  {
    SatSub(maxTickCount * r.numer + r.numer - 1, r.denom - 1 + h * r.denom)
  }

  function HwBound(r: Ratio, h: u32): (b: nat)
    requires r.denom > 0
  {
    var room: nat := U32_MAX - h;
    SatSub(room * r.denom, r.denom - 1)
  }

  function StatelessMaxTimeout(r: Ratio, h: nat, maxTickCount: nat): (m: nat)
    requires r.denom > 0 && r.numer > 0
  {
    OsBound(r, h, maxTickCount) / r.numer
  }

  function StatefulMaxTimeout(r: Ratio, h: u32): (m: nat)
    requires r.denom > 0 && r.numer > 0
  {
    var bound := Min(HwBound(r, h), OsBound(r, h, U32_MAX));
    QuotientNonNegative(bound, r.numer);
    bound / r.numer
  }

  lemma QuotientNonNegative(x: nat, d: nat)
    requires d > 0
    ensures x / d >= 0
  {
    FloorAdjoint(x, d, 0);
  }

  /** `TicklessCfg::new`. */
  function New(o: Options): (res: Result<Cfg, CfgError>) {
    if o.hwFreqDenom == 0 then Failure(FreqDenomZero)
    else if o.hwFreqNum == 0 then Failure(FreqNumZero)
    else
      ReduceIsLowestTerms(TicksPerMicro(o));
      var r := Reduce(TicksPerMicro(o));
      NonNegativeParts(r);
      var floor: nat := r.numer / r.denom;
      if floor > U32_MAX then Failure(FreqTooHigh)
      else if r.denom > U64_MAX then Failure(InternalOverflow)
      else
        GlobalPeriodsOfLowestTerms(r);
        var p := GlobalPeriods(r);
        if StatelessApplies(p, o.forceFullHwPeriod, o.resettable) then
          StatelessLimits(p);
          var hwMax := p.hw * Repeat(p) - 1;
          var max := p.os * Repeat(p) - 1;
          var timeout := StatelessMaxTimeout(r, o.hwHeadroomTicks, max);
          if timeout == 0 then Failure(OSMaxTimeoutTooLow)
          else
            TimeoutFits(r, o.hwHeadroomTicks, max);
            Success(Cfg(floor, r.numer % r.denom, Stateless(hwMax, max), r.denom, timeout))
        else
          var timeout := StatefulMaxTimeout(r, o.hwHeadroomTicks);
          if timeout == 0 then Failure(OSMaxTimeoutTooLow)
          else
            StatefulTimeoutFits(r, o.hwHeadroomTicks);
            Success(Cfg(floor, r.numer % r.denom, Stateful, r.denom, timeout))
  }

  lemma NonNegativeParts(r: Ratio)
    requires r.denom > 0
    ensures 0 <= r.numer / r.denom && 0 <= r.numer % r.denom < r.denom
    ensures r.numer == (r.numer / r.denom) * r.denom + r.numer % r.denom
  {
    FloorAdjoint(r.numer, r.denom, 0);
  }

  /** In lowest terms the two periods are the numerator and the denominator. */
  lemma GlobalPeriodsOfLowestTerms(r: Ratio)
    requires r.denom > 0 && r.numer > 0 && Gcd(r.numer, r.denom) == 1
    ensures GlobalPeriods(r) == Periods(r.numer, r.denom)
  {
    GcdOfRemainder(r.numer, r.denom);
    if r.numer % r.denom == 0 {
      assert Gcd(0, r.denom) == Gcd(r.denom, 0 % r.denom);
      ModSmall(0, r.denom);
      assert r.denom == 1;
    }
    DivModUnique(r.numer, 1, r.numer, 0);
    DivModUnique(r.denom, 1, r.denom, 0);
  }

  /** Both maximum tick counts are positive 32-bit values. */
  lemma StatelessLimits(p: Periods)
    requires 0 < p.hw <= TWO32 && 0 < p.os <= TWO32
    requires (p.hw <= TWO31 || p.os > 1) && (p.os <= TWO31 || p.hw > 1)
    ensures 1 <= p.hw * Repeat(p) - 1 < TWO32
    ensures 1 <= p.os * Repeat(p) - 1 < TWO32
  {
    var k := Repeat(p);
    FloorAdjoint(TWO32, p.hw, 1);
    FloorAdjoint(TWO32, p.os, 1);
    FloorAdjoint(TWO32, p.hw, k);
    FloorAdjoint(TWO32, p.os, k);
    FloorAdjoint(TWO32, p.hw, 2);
    FloorAdjoint(TWO32, p.os, 2);
    assert k * p.hw == p.hw * k && k * p.os == p.os * k;
    assert p.hw == 1 ==> k >= 2;
    assert p.os == 1 ==> k >= 2;
    if p.hw > 1 { MulMono(1, k, p.hw); }
    if p.os > 1 { MulMono(1, k, p.os); }
  }

  lemma TimeoutFits(r: Ratio, h: nat, max: u32)
    requires r.denom > 0 && r.numer > 0
    ensures OsBound(r, h, max) / r.numer <= max
  {
    FloorAdjoint(OsBound(r, h, max), r.numer, max + 1);
    assert (max + 1) * r.numer == max * r.numer + r.numer;
    assert h * r.denom >= 0;
  }

  lemma StatefulTimeoutFits(r: Ratio, h: u32)
    requires r.denom > 0 && r.numer > 0
    ensures 0 <= StatefulMaxTimeout(r, h) <= U32_MAX
  {
    TimeoutFits(r, h, U32_MAX);
    var a, b := Min(HwBound(r, h), OsBound(r, h, U32_MAX)), OsBound(r, h, U32_MAX);
    FloorAdjoint(a, r.numer, a / r.numer);
    FloorAdjoint(b, r.numer, a / r.numer);
  }

  /** The rate an accepted configuration holds is exactly the rate of the
      hardware timer, in lowest terms, and its limits are usable. */
  lemma NewIsExact(o: Options)
    requires New(o).Success?
    ensures var cfg := New(o).value;
            && cfg.Valid()
            && cfg.Numer() * (o.hwFreqDenom * 1_000_000) == o.hwFreqNum * cfg.division
            && (o.resettable ==> cfg.algorithm.Stateful?)
            && (o.forceFullHwPeriod ==> cfg.HwMaxTickCount() == U32_MAX)
    ensures Reduce(TicksPerMicro(o)) == Ratio(New(o).value.Numer(), New(o).value.division)
  {
    var r := Reduce(TicksPerMicro(o));
    ReduceIsLowestTerms(TicksPerMicro(o));
    NonNegativeParts(r);
    GlobalPeriodsOfLowestTerms(r);
    var cfg := New(o).value;
    assert cfg.division == r.denom && cfg.Numer() == r.numer;
    var p := GlobalPeriods(r);
    if StatelessApplies(p, o.forceFullHwPeriod, o.resettable) {
      StatelessLimits(p);
      PeriodsAlign(p, Repeat(p));
      if o.forceFullHwPeriod { FullHwPeriod(p); }
    }
  }

  lemma PeriodsAlign(p: Periods, k: nat)
    ensures (p.hw * k) * p.os == (p.os * k) * p.hw
  {
  }

  /** A forced full hardware period really is 2^32 ticks long. */
  lemma FullHwPeriod(p: Periods)
    requires 0 < p.os <= p.hw && TWO32 % p.hw == 0
    ensures p.hw * Repeat(p) == TWO32
  {
    var k := TWO32 / p.hw;
    assert TWO32 == p.hw * k;
    MulMono(p.os, p.hw, k);
    FloorAdjoint(TWO32, p.os, k);
  }

  // ----- the choice of the algorithm -----

  /** `k` times the two counts at which hardware ticks and OS ticks line up first are
      periods of two 32-bit counters that wrap around, and the hardware period is 2^32
      ticks if it has to be. */
  ghost predicate PeriodsFit(n: nat, d: nat, k: nat, forceFullHwPeriod: bool) {
    && 2 <= k * n <= TWO32 && 2 <= k * d <= TWO32
    && (forceFullHwPeriod ==> k * n == TWO32)
  }

  /** The stateless algorithm is chosen if and only if the timer is not resettable and
      there are such periods; then the longest ones are used. */
  lemma AlgorithmChosen(o: Options)
    requires New(o).Success?
    ensures var cfg := New(o).value;
            && (cfg.algorithm.Stateless? <==>
                  !o.resettable && exists k: nat :: PeriodsFit(cfg.Numer(), cfg.division, k, o.forceFullHwPeriod))
            && (cfg.algorithm.Stateless? ==>
                  exists k: nat ::
                    && PeriodsFit(cfg.Numer(), cfg.division, k, o.forceFullHwPeriod)
                    && cfg.HwMaxTickCount() + 1 == k * cfg.Numer() && cfg.MaxTickCount() + 1 == k * cfg.division
                    && ((k + 1) * cfg.Numer() > TWO32 || (k + 1) * cfg.division > TWO32))
  {
    hide PeriodsFit, StatelessApplies, Repeat, Gcd;
    var cfg := New(o).value;
    NewIsExact(o);
    var n, d := cfg.Numer(), cfg.division;
    ReduceIsLowestTerms(TicksPerMicro(o));
    GlobalPeriodsOfLowestTerms(Ratio(n, d));
    AppliesIff(n, d, o.forceFullHwPeriod, o.resettable);
    if cfg.algorithm.Stateless? {
      LongestFit(n, d, o.forceFullHwPeriod, o.resettable);
      var k := Repeat(Periods(n, d));
      assert n * k == k * n && d * k == k * d;
      assert PeriodsFit(n, d, k, o.forceFullHwPeriod);
    }
  }

  lemma AppliesIff(n: nat, d: nat, force: bool, resettable: bool)
    requires n > 0 && d > 0
    ensures StatelessApplies(Periods(n, d), force, resettable) <==>
            !resettable && exists k: nat :: PeriodsFit(n, d, k, force)
  {
    if StatelessApplies(Periods(n, d), force, resettable) {
      LongestFit(n, d, force, resettable);
    }
    if k: nat :| PeriodsFit(n, d, k, force) && !resettable {
      FitApplies(n, d, k, force);
    }
  }

  /** The repetition that is used fits, and the next one does not. */
  lemma LongestFit(n: nat, d: nat, force: bool, resettable: bool)
    requires n > 0 && d > 0 && StatelessApplies(Periods(n, d), force, resettable)
    ensures var k := Repeat(Periods(n, d));
            PeriodsFit(n, d, k, force) && ((k + 1) * n > TWO32 || (k + 1) * d > TWO32)
  {
    var p := Periods(n, d);
    var k := Repeat(p);
    StatelessLimits(p);
    assert n * k == k * n && d * k == k * d;
    FloorAdjoint(TWO32, n, k + 1);
    FloorAdjoint(TWO32, d, k + 1);
    if force { FullHwPeriod(p); }
  }

  lemma FitApplies(n: nat, d: nat, k: nat, force: bool)
    requires n > 0 && d > 0 && PeriodsFit(n, d, k, force)
    ensures StatelessApplies(Periods(n, d), force, false)
  {
    FactorIsPositive(k, n);
    MulMono(1, k, n);
    MulMono(1, k, d);
    if k >= 2 {
      MulMono(2, k, n);
      MulMono(2, k, d);
    }
    if force {
      FitDivides(n, k);
      if d > n { MulMono(n + 1, d, k); Expand(n, 1, k); }
    }
  }

  lemma FactorIsPositive(k: nat, n: nat)
    requires k * n > 0
    ensures k > 0
  {
  }

  lemma FitDivides(n: nat, k: nat)
    requires n > 0 && k * n == TWO32
    ensures TWO32 % n == 0
  {
    DivModUnique(TWO32, n, k, 0);
  }

  // ----- rejected options -----

  /** The configuration that `TicklessCfg::new` has found before it looks for the longest
      timeout; one microsecond stands in for that. */
  function Rate(o: Options): (cfg: Option<Cfg>) {
    if o.hwFreqDenom == 0 || o.hwFreqNum == 0 then None
    else
      ReduceIsLowestTerms(TicksPerMicro(o));
      var r := Reduce(TicksPerMicro(o));
      NonNegativeParts(r);
      var floor: nat := r.numer / r.denom;
      if floor > U32_MAX || r.denom > U64_MAX then None
      else
        GlobalPeriodsOfLowestTerms(r);
        var p := GlobalPeriods(r);
        if StatelessApplies(p, o.forceFullHwPeriod, o.resettable) then
          StatelessLimits(p);
          Some(Cfg(floor, r.numer % r.denom, Stateless(p.hw * Repeat(p) - 1, p.os * Repeat(p) - 1), r.denom, 1))
        else
          Some(Cfg(floor, r.numer % r.denom, Stateful, r.denom, 1))
  }

  /** The longest timeout computed for a configuration; zero is too low. */
  function LongestTimeout(cfg: Cfg, h: u32): (t: nat)
    requires cfg.Numer() > 0 && cfg.division > 0
  {
    match cfg.algorithm
    case Stateless(_, max) =>
      QuotientNonNegative(OsBound(Ratio(cfg.Numer(), cfg.division), h, max), cfg.Numer());
      StatelessMaxTimeout(Ratio(cfg.Numer(), cfg.division), h, max)
    case Stateful => StatefulMaxTimeout(Ratio(cfg.Numer(), cfg.division), h)
  }

  lemma RateIsValid(o: Options)
    requires Rate(o).Some?
    ensures Rate(o).value.Valid()
    ensures Reduce(TicksPerMicro(o)) == Ratio(Rate(o).value.Numer(), Rate(o).value.division)
  {
    var r := Reduce(TicksPerMicro(o));
    ReduceIsLowestTerms(TicksPerMicro(o));
    NonNegativeParts(r);
    GlobalPeriodsOfLowestTerms(r);
    var cfg := Rate(o).value;
    assert cfg.division == r.denom && cfg.Numer() == r.numer;
    var p := GlobalPeriods(r);
    if StatelessApplies(p, o.forceFullHwPeriod, o.resettable) {
      StatelessLimits(p);
      PeriodsAlign(p, Repeat(p));
    }
  }

  /** `TicklessCfg::new` fails with `OSMaxTimeoutTooLow` if and only if it finds a rate
      whose longest timeout is zero. */
  lemma NewIsRateWithTimeout(o: Options)
    ensures Rate(o).None? <==> New(o).Failure? && New(o).error != OSMaxTimeoutTooLow
    ensures Rate(o).Some? ==>
              && Rate(o).value.Valid()
              && var t := LongestTimeout(Rate(o).value, o.hwHeadroomTicks);
                 && (t == 0 <==> New(o) == Failure(OSMaxTimeoutTooLow))
                 && (t > 0 ==>
                      && New(o).Success?
                      && New(o).value == Rate(o).value.(maxTimeout := New(o).value.maxTimeout)
                      && New(o).value.maxTimeout == t)
  {
    if Rate(o).Some? {
      RateIsValid(o);
      var r := Reduce(TicksPerMicro(o));
      ReduceIsLowestTerms(TicksPerMicro(o));
      GlobalPeriodsOfLowestTerms(r);
    }
  }

  /** Which of the errors about the frequency, if any, `TicklessCfg::new` reports; the
      condition of `OSMaxTimeoutTooLow` is `MaxTimeoutTooLowIff`. */
  lemma NewErrors(o: Options)
    ensures New(o) == Failure(FreqDenomZero) <==> o.hwFreqDenom == 0
    ensures New(o) == Failure(FreqNumZero) <==> o.hwFreqDenom != 0 && o.hwFreqNum == 0
    ensures New(o) == Failure(FreqTooHigh) <==>
            o.hwFreqNum != 0 && o.hwFreqDenom != 0 && o.hwFreqNum >= TWO32 * (o.hwFreqDenom * 1_000_000)
    ensures New(o) == Failure(InternalOverflow) <==>
            && o.hwFreqNum != 0 && o.hwFreqDenom != 0 && o.hwFreqNum < TWO32 * (o.hwFreqDenom * 1_000_000)
            && o.hwFreqDenom * 1_000_000 > U64_MAX * Gcd(o.hwFreqNum, o.hwFreqDenom * 1_000_000)
  {
    if o.hwFreqNum != 0 && o.hwFreqDenom != 0 {
      TooHighIff(o);
      OverflowIff(o);
    }
  }

  lemma TooHighIff(o: Options)
    requires o.hwFreqNum != 0 && o.hwFreqDenom != 0
    ensures var r := Reduce(TicksPerMicro(o));
            r.denom > 0 && (r.numer / r.denom > U32_MAX <==> o.hwFreqNum >= TWO32 * (o.hwFreqDenom * 1_000_000))
  {
    var s := TicksPerMicro(o);
    ReduceIsLowestTerms(s);
    var r := Reduce(s);
    FloorAdjoint(r.numer, r.denom, TWO32);
    MulRotate(TWO32, r.denom, s.denom);
    ScaleOrder(TWO32 * r.denom, r.numer, s.denom);
    ScaleOrder(TWO32 * s.denom, s.numer, r.denom);
  }

  lemma OverflowIff(o: Options)
    requires o.hwFreqNum != 0 && o.hwFreqDenom != 0
    ensures Reduce(TicksPerMicro(o)).denom > U64_MAX <==>
            o.hwFreqDenom * 1_000_000 > U64_MAX * Gcd(o.hwFreqNum, o.hwFreqDenom * 1_000_000)
  {
    var s := TicksPerMicro(o);
    GcdPositive(s.numer, s.denom);
    GcdIsGreatest(s.numer, s.denom);
    var g := Gcd(s.numer, s.denom);
    var q := ExactQuotient(g, s.denom);
    hide Gcd;
    ScaleOrder(q, U64_MAX, g);
  }

  /** The OS period of the configuration is the least number of microseconds
      after which the fractional hardware ticks add up to a whole number, and
      over it exactly the hardware period's number of ticks passes. */
  lemma GlobalPeriodIsLeast(o: Options)
    requires o.hwFreqDenom > 0 && o.hwFreqNum > 0
    ensures var r := Reduce(TicksPerMicro(o));
            r.denom > 0 &&
            var p := GlobalPeriods(r);
            var sub := r.numer % r.denom;
            && p.os > 0 && Divides(r.denom, p.os * sub)
            && (forall i: nat :: 0 < i < p.os ==> !Divides(r.denom, i * sub))
            && p.os * r.numer == p.hw * r.denom
  {
    var r := Reduce(TicksPerMicro(o));
    ReduceIsLowestTerms(TicksPerMicro(o));
    GlobalPeriodsOfLowestTerms(r);
    var sub := r.numer % r.denom;
    DividesIntro(r.denom, r.denom * sub, sub);
    GcdOfRemainder(r.numer, r.denom);
    forall i: nat | 0 < i < r.denom
      ensures !Divides(r.denom, i * sub)
    {
      if Divides(r.denom, i * sub) {
        CoprimeCancels(r.denom, sub, i);
        DividesIffMod(r.denom, i);
        ModSmall(i, r.denom);
      }
    }
  }

  // ----- the 128-bit intermediate values -----

  /** No intermediate value of `TicklessCfg::new` leaves its integer type, and
      no `assert!` in it can fail. */
  lemma NewNeverOverflows(o: Options)
    requires o.hwFreqDenom > 0 && o.hwFreqNum > 0
    ensures TicksPerMicro(o).denom < TWO128
    ensures var r := Reduce(TicksPerMicro(o));
            && 1 <= r.numer <= U64_MAX && 1 <= r.denom <= U64_MAX * 1_000_000
            && r.numer / r.denom <= U64_MAX
            && (r.denom <= U64_MAX ==>
                  var p := GlobalPeriods(r);
                  && 1 <= p.hw <= r.numer && 1 <= p.os <= r.denom
                  && U32_MAX * r.numer + r.numer - 1 < TWO128
                  && r.denom - 1 + o.hwHeadroomTicks * r.denom < TWO128
                  && (U32_MAX - o.hwHeadroomTicks) * r.denom < TWO128)
  {
    hide Reduce;
    var r := Reduce(TicksPerMicro(o));
    ReduceIsLowestTerms(TicksPerMicro(o));
    FloorAdjoint(r.numer, r.denom, U64_MAX + 1);
    MulMono(1, r.denom, U64_MAX + 1);
    if r.denom <= U64_MAX {
      GlobalPeriodsOfLowestTerms(r);
      HeadroomFits(o.hwHeadroomTicks, r.denom);
    }
  }

  lemma HeadroomFits(h: u32, d: u64)
    ensures 0 <= h * d <= U32_MAX * U64_MAX && 0 <= (U32_MAX - h) * d <= U32_MAX * U64_MAX
  {
    MulMono(h, U32_MAX, d);
    MulMono(0, h, d);
    Expand(U32_MAX, -(h as int), d);
    MulMono(0, U32_MAX - h, d);
  }
}
