/** The tickful timing algorithm (`tickful.rs`): a fixed number of hardware
    cycles passes between two calls of `tick`, and the OS tick count must still
    follow the exact rational clock. */
module Tickful {
  import opened Num
  import opened Words
  import opened Wrappers

  /** `TIME_HARD_HEADROOM` in microseconds. */
  const TIME_HARD_HEADROOM: nat := 0x4000_0000

  datatype Options = Options(hwFreqNum: u64, hwFreqDenom: u64, hwTickPeriod: u32)

  datatype CfgError =
    | FreqNumZero
    | FreqDenomZero
    | PeriodZero
    | PeriodOverflowsU32
    | PeriodExceedsKernelHeadroom

  /** The tick period is `tickPeriodMicros + tickPeriodSubmicros / division`. */
  datatype Cfg = Cfg(tickPeriodMicros: u32, tickPeriodSubmicros: u64, division: u64)
  {
    ghost predicate Valid() {
      0 <= tickPeriodSubmicros < division
    }

    /** The tick period in units of `1 / division` microseconds. */
    ghost function Numer(): (p: nat) {
      tickPeriodMicros * division + tickPeriodSubmicros
    }
  }

  /** The period in microseconds as the fraction the options describe. */
  function PeriodMicros(o: Options): (r: Ratio) {
    Ratio(o.hwFreqDenom * o.hwTickPeriod * 1_000_000, o.hwFreqNum)
  }

  /** `TickfulCfg::new`. */
  function New(o: Options): (r: Result<Cfg, CfgError>) {
    if o.hwFreqDenom == 0 then Failure(FreqDenomZero)
    else if o.hwFreqNum == 0 then Failure(FreqNumZero)
    else if o.hwTickPeriod == 0 then Failure(PeriodZero)
    else
      ReduceIsLowestTerms(PeriodMicros(o));
      var period := Reduce(PeriodMicros(o));
      var ceil := Ceil(period);
      if ceil >= TWO32 then Failure(PeriodOverflowsU32)
      else if ceil > TIME_HARD_HEADROOM then Failure(PeriodExceedsKernelHeadroom)
      else
        FloorBelowCeil(period);
        Success(Cfg(period.numer / period.denom, period.numer % period.denom, period.denom))
  }

  lemma FloorBelowCeil(r: Ratio)
    requires r.denom > 0
    ensures 0 <= r.numer / r.denom <= Ceil(r)
  {
    FloorAdjoint(r.numer, r.denom, 0);
  }

  lemma CrossRatio(a: nat, b: nat, c: nat, d: nat, n: nat, q: nat)
    requires a * d == c * b && b > 0 && d > 0
    ensures q * b <= n * a <==> q * d <= n * c
  {
    MulRotate(q, b, d);
    MulAssoc(n, a, d);
    MulAssoc(n, c, b);
    ScaleOrder(q * b, n * a, d);
    ScaleOrder(q * d, n * c, b);
  }

  /** Equal fractions have equal multiples after flooring. */
  lemma FloorOfEqualFractions(a: nat, b: nat, c: nat, d: nat, n: nat)
    requires a * d == c * b && b > 0 && d > 0
    ensures n * a / b == n * c / d
  {
    var p, q := n * a / b, n * c / d;
    FloorAdjoint(n * a, b, 0);
    FloorAdjoint(n * c, d, 0);
    FloorAdjoint(n * a, b, p);
    FloorAdjoint(n * c, d, p);
    CrossRatio(a, b, c, d, n, p);
    FloorAdjoint(n * a, b, q);
    FloorAdjoint(n * c, d, q);
    CrossRatio(a, b, c, d, n, q);
  }

  /** `TickfulCfg::new` accepts exactly the clocks whose tick period, rounded up
      to whole microseconds, does not exceed the kernel's hard headroom, and what
      it returns is the exact period. */
  lemma NewIsExact(o: Options)
    ensures New(o).Success? <==>
            && o.hwFreqDenom > 0 && o.hwFreqNum > 0 && o.hwTickPeriod > 0
            && PeriodMicros(o).numer <= TIME_HARD_HEADROOM * o.hwFreqNum
    ensures New(o) == Failure(PeriodOverflowsU32) <==>
            && o.hwFreqDenom > 0 && o.hwFreqNum > 0 && o.hwTickPeriod > 0
            && PeriodMicros(o).numer > U32_MAX * o.hwFreqNum
    ensures New(o).Success? ==>
            var cfg := New(o).value;
            cfg.Valid() && cfg.Numer() * o.hwFreqNum == PeriodMicros(o).numer * cfg.division
  {
    if o.hwFreqDenom > 0 && o.hwFreqNum > 0 && o.hwTickPeriod > 0 {
      var full := PeriodMicros(o);
      ReduceIsLowestTerms(full);
      var period := Reduce(full);
      CeilBound(period, full, TIME_HARD_HEADROOM);
      CeilBound(period, full, U32_MAX);
      if New(o).Success? {
        var cfg := New(o).value;
        SplitRatio(period);
        assert cfg.Numer() == period.numer && cfg.division == period.denom;
      }
    }
  }

  lemma CeilBound(r: Ratio, s: Ratio, q: nat)
    requires r.denom > 0 && s.denom > 0 && r.numer * s.denom == s.numer * r.denom
    ensures Ceil(r) <= q <==> s.numer <= q * s.denom
  {
    CeilIsCeilDiv(r);
    CeilAdjoint(r.numer, r.denom, q);
    OrderOfEqualFractions(r, s, q);
  }

  lemma SplitRatio(r: Ratio)
    requires r.denom > 0
    ensures (r.numer / r.denom) * r.denom + r.numer % r.denom == r.numer
  {
  }

  lemma OrderOfEqualFractions(r: Ratio, s: Ratio, q: nat)
    requires r.denom > 0 && s.denom > 0 && r.numer * s.denom == s.numer * r.denom
    ensures r.numer <= q * r.denom <==> s.numer <= q * s.denom
  {
    MulRotate(q, r.denom, s.denom);
    ScaleOrder(r.numer, q * r.denom, s.denom);
    ScaleOrder(s.numer, q * s.denom, r.denom);
  }

  // ----- the state machine -----

  datatype State = State(micros: u32, submicros: nat)

  const INIT: State := State(0, 0)

  /** One call of `tick` on values. */
  function TickStep(cfg: Cfg, s: State): (s': State)
    requires cfg.division > 0
  {
    var sub := s.submicros + cfg.tickPeriodSubmicros;
    var micros := Add32(s.micros, cfg.tickPeriodMicros);
    State(if sub / cfg.division > 0 then Add32(micros, 1) else micros, sub % cfg.division)
  }

  ghost function AfterTicks(cfg: Cfg, n: nat): (s: State)
    requires cfg.division > 0
  {
    if n == 0 then INIT else TickStep(cfg, AfterTicks(cfg, n - 1))
  }

  /** The state of a clock that has counted `x / division` microseconds. */
  ghost function At(cfg: Cfg, x: nat): (s: State)
    requires cfg.division > 0
  {
    State(Wrap32(x / cfg.division), x % cfg.division)
  }

  /** The state that the exact clock has after `n` periods. */
  ghost function Exact(cfg: Cfg, n: nat): (s: State)
    requires cfg.division > 0
  {
    At(cfg, n * cfg.Numer())
  }

  /** One tick takes the exact clock at `n` periods to the exact clock at `n + 1`. */
  lemma TickIsExact(cfg: Cfg, n: nat)
    requires cfg.Valid()
    ensures TickStep(cfg, Exact(cfg, n)) == Exact(cfg, n + 1)
    ensures (n + 1) * cfg.Numer() / cfg.division - n * cfg.Numer() / cfg.division <= cfg.tickPeriodMicros + 1
    ensures cfg.tickPeriodSubmicros == 0 ==>
              (n + 1) * cfg.Numer() / cfg.division - n * cfg.Numer() / cfg.division == cfg.tickPeriodMicros
  {
    hide Cfg.Numer, At, TickStep;
    StepFrom(cfg, n * cfg.Numer());
    OneMore(n, cfg.Numer());
  }

  lemma OneMore(n: nat, p: nat)
    ensures (n + 1) * p == n * p + p
  {
  }

  /** One tick from the exact clock that reads `x / division`. */
  lemma StepFrom(cfg: Cfg, x: nat)
    requires cfg.Valid()
    ensures TickStep(cfg, At(cfg, x)) == At(cfg, x + cfg.Numer())
    ensures var rise := (x + cfg.Numer()) / cfg.division - x / cfg.division;
            && 0 <= rise <= cfg.tickPeriodMicros + 1
            && (cfg.tickPeriodSubmicros == 0 ==> rise == cfg.tickPeriodMicros)
  {
    hide Wrap32, Add32;
    StepParts(cfg, x, x / cfg.division, x % cfg.division);
  }

  lemma StepParts(cfg: Cfg, x: nat, q: nat, r: nat)
    requires cfg.Valid() && q == x / cfg.division && r == x % cfg.division
    ensures var rise := (x + cfg.Numer()) / cfg.division - q;
            && 0 <= rise <= cfg.tickPeriodMicros + 1
            && (cfg.tickPeriodSubmicros == 0 ==> rise == cfg.tickPeriodMicros)
    ensures TickStep(cfg, State(Wrap32(q), r))
         == State(Wrap32((x + cfg.Numer()) / cfg.division), (x + cfg.Numer()) % cfg.division)
  {
    hide Wrap32, Add32;
    var carry := CarryStep(x, cfg.division, q, r, cfg.tickPeriodMicros, cfg.tickPeriodSubmicros);
    WrapCarry(q, cfg.tickPeriodMicros, carry);
  }

  lemma WrapCarry(q: nat, m: u32, carry: nat)
    requires carry <= 1
    ensures Wrap32(q + m + carry)
         == (if carry > 0 then Add32(Add32(Wrap32(q), m), 1) else Add32(Wrap32(q), m))
  {
    hide Wrap32, Add32;
    Add32Word(q, m);
    Add32Word(q + m, 1);
  }

  lemma Add32Word(x: nat, y: u32)
    ensures Add32(Wrap32(x), y) == Wrap32(x + y)
  {
    ModAdd(x, y, TWO32);
  }

  /** Adding `m + s / d` to a value held as quotient `q` and remainder `r` by `d`. */
  lemma CarryStep(x: nat, d: nat, q: nat, r: nat, m: nat, s: nat) returns (carry: nat)
    requires r < d && s < d && q == x / d && r == x % d
    ensures carry == (r + s) / d <= 1 && (s == 0 ==> carry == 0)
    ensures (x + (m * d + s)) / d == q + m + carry
    ensures (x + (m * d + s)) % d == (r + s) % d
  {
    carry := if r + s < d then 0 else 1;
    var rest := if r + s < d then r + s else r + s - d;
    DivModUnique(r + s, d, carry, rest);
    Split(x, d);
    CarrySum(x, d, q, r, m, s, carry, rest);
    DivModUnique(x + (m * d + s), d, q + m + carry, rest);
  }

  lemma Split(x: nat, d: nat)
    requires d > 0
    ensures x == d * (x / d) + x % d
  {
  }

  lemma CarrySum(x: nat, d: nat, q: nat, r: nat, m: nat, s: nat, carry: nat, rest: nat)
    requires x == d * q + r && r + s == d * carry + rest
    ensures x + (m * d + s) == d * (q + m + carry) + rest
  {
    Expand(q, m + carry, d);
    Expand(m, carry, d);
  }

  lemma {:induction false} AfterTicksIsExact(cfg: Cfg, n: nat)
    requires cfg.Valid()
    ensures AfterTicks(cfg, n) == Exact(cfg, n)
  {
    if n == 0 {
      ModSmall(0, cfg.division);
    } else {
      AfterTicksIsExact(cfg, n - 1);
      TickIsExact(cfg, n - 1);
    }
  }

  /** For every accepted configuration and every number of calls of `tick`, the
      OS tick count is the whole number of microseconds in that many hardware
      tick periods, modulo 2^32, and no single call advances it by more than
      the kernel's hard headroom. */
  lemma TickCountHasNoDrift(o: Options, n: nat)
    requires New(o).Success?
    ensures var cfg := New(o).value;
            && cfg.Valid()
            && AfterTicks(cfg, n).micros == Wrap32(n * PeriodMicros(o).numer / o.hwFreqNum)
            && Sub32(AfterTicks(cfg, n + 1).micros, AfterTicks(cfg, n).micros) <= TIME_HARD_HEADROOM
  {
    hide New, PeriodMicros, Cfg.Numer, AfterTicks, At, Wrap32, Sub32;
    var cfg := New(o).value;
    NewIsExact(o);
    AfterTicksIsExact(cfg, n);
    AfterTicksIsExact(cfg, n + 1);
    ExactCount(cfg, PeriodMicros(o).numer, o.hwFreqNum, n);
    StepWithinCeil(o);
    ExactStep(cfg, n);
  }

  /** The exact clock reads the same for any fraction equal to the period. */
  lemma ExactCount(cfg: Cfg, a: nat, b: nat, n: nat)
    requires cfg.Valid() && b > 0 && cfg.Numer() * b == a * cfg.division
    ensures Exact(cfg, n).micros == Wrap32(n * a / b)
  {
    hide Cfg.Numer, Wrap32;
    FloorOfEqualFractions(cfg.Numer(), cfg.division, a, b, n);
  }

  /** One tick moves the count on by at most the period rounded up. */
  lemma ExactStep(cfg: Cfg, n: nat)
    requires cfg.Valid()
    requires cfg.tickPeriodMicros + (if cfg.tickPeriodSubmicros == 0 then 0 else 1) <= TIME_HARD_HEADROOM
    ensures Sub32(Exact(cfg, n + 1).micros, Exact(cfg, n).micros) <= TIME_HARD_HEADROOM
  {
    hide Cfg.Numer, Wrap32, Sub32, TickStep;
    StepFrom(cfg, n * cfg.Numer());
    OneMore(n, cfg.Numer());
    Sub32Exact((n * cfg.Numer() + cfg.Numer()) / cfg.division, n * cfg.Numer() / cfg.division);
  }

  /** The floor and the ceiling of the period differ by the fraction left over. */
  lemma StepWithinCeil(o: Options)
    requires New(o).Success?
    ensures var cfg := New(o).value;
            cfg.tickPeriodMicros + (if cfg.tickPeriodSubmicros == 0 then 0 else 1) <= TIME_HARD_HEADROOM
  {
    hide PeriodMicros, Reduce;
  }

  /** The state of the tickful timer. */
  class TickfulStateCore {
    var tickCountMicros: u32
    var tickCountSubmicros: u64
    /** The number of calls of `Tick` so far. */
    ghost var ticks: nat

    function Value(): (s: State)
      reads this
    {
      State(tickCountMicros, tickCountSubmicros)
    }

    ghost predicate Valid(cfg: Cfg)
      reads this
    {
      cfg.Valid() && Value() == Exact(cfg, ticks)
    }

    constructor (cfg: Cfg)
      requires cfg.Valid()
      ensures Valid(cfg) && ticks == 0
    {
      tickCountMicros, tickCountSubmicros, ticks := 0, 0, 0;
      new;
      ModSmall(0, cfg.division);
    }

    /** `TickfulStateTrait::tick`. */
    method Tick(cfg: Cfg)
      requires Valid(cfg)
      modifies this
      ensures Valid(cfg) && ticks == old(ticks) + 1
      ensures Value() == TickStep(cfg, old(Value()))
    {
      tickCountMicros := Add32(tickCountMicros, cfg.tickPeriodMicros);
      WrappingAdd64IsModular(cfg.division - 1, U64_MAX, false, tickCountSubmicros, cfg.tickPeriodSubmicros);
      var sum := WrappingAdd64(cfg.division - 1, U64_MAX, false, tickCountSubmicros, cfg.tickPeriodSubmicros);
      tickCountSubmicros := sum.value;
      if sum.wraps > 0 {
        tickCountMicros := Add32(tickCountMicros, 1);
      }
      TickIsExact(cfg, ticks);
      ticks := ticks + 1;
    }

    /** `TickfulStateTrait::tick_count`: the floor of the exact clock. */
    method TickCount(cfg: Cfg) returns (count: u32)
      requires Valid(cfg)
      ensures count == Wrap32(ticks * cfg.Numer() / cfg.division)
    {
      count := tickCountMicros;
    }
  }
}
