/** The stateless tickless algorithm (`tickless.rs`, `TicklessStatelessCore`). */
module TicklessStateless {
  import opened Num
  import opened Words
  import opened TicklessCfg
  import opened TicklessClock
  import opened TicklessMeasure

  /** `tick_count`. */
  function TickCount(cfg: Cfg, hwTickCount: u32): (t: u32)
    requires cfg.Numer() > 0
  {
    QuotientNonNegative(hwTickCount * cfg.division, cfg.Numer());
    Wrap32(hwTickCount * cfg.division / cfg.Numer())
  }

  /** The subticks of `tickCount` microseconds, rounded up to whole hardware ticks. */
  function FractionalTicks(cfg: Cfg, tickCount: u32): (f: nat)
    requires cfg.division > 0
  {
    var fraction: nat := tickCount * cfg.subticksPerMicro;
    QuotientNonNegative(fraction + cfg.division - 1, cfg.division);
    CeilDiv(fraction, cfg.division)
  }

  /** `tick_count_to_hw_tick_count`. The product is a 32-bit multiplication. */
  function TickToHw(cfg: Cfg, tickCount: u32): (hw: u32)
    requires cfg.division > 0
  {
    var hw := Add32(Mul32(tickCount, cfg.ticksPerMicro), Wrap32(FractionalTicks(cfg, tickCount)));
    if cfg.HwMaxTickCount() != U32_MAX && hw == cfg.HwMaxTickCount() + 1 then 0 else hw
  }

  /** `mark_reference_and_measure`. */
  function Measure(cfg: Cfg, hwTickCount: u32, ticks: u32): (m: Measurement)
    requires cfg.Valid() && cfg.algorithm.Stateless?
    requires hwTickCount <= cfg.HwMaxTickCount() && ticks <= cfg.MaxTickCount()
  {
    CountInRange(cfg, hwTickCount);
    var cur := TickCount(cfg, hwTickCount);
    AddModIsModular(cur, ticks, cfg.MaxTickCount());
    var end := AddMod(cur, ticks, cfg.MaxTickCount());
    TickToHwIsEarliest(cfg, end);
    var endHw := TickToHw(cfg, end);
    Measurement(endHw, SubMod(endHw, hwTickCount, cfg.HwMaxTickCount()))
  }

  /** Within one hardware period the OS tick count needs no reduction. */
  lemma CountInRange(cfg: Cfg, hw: u32)
    requires cfg.Valid() && cfg.algorithm.Stateless? && hw <= cfg.HwMaxTickCount()
    ensures TickCount(cfg, hw) == OsTime(cfg, hw) <= cfg.MaxTickCount()
  {
    FloorAdjoint(hw * cfg.division, cfg.Numer(), cfg.MaxTickCount() + 1);
    MulMono(hw + 1, cfg.HwMaxTickCount() + 1, cfg.division);
    assert (hw + 1) * cfg.division == hw * cfg.division + cfg.division;
    ModSmall(OsTime(cfg, hw), TWO32);
  }

  /** After whole periods both clocks have advanced by whole periods. */
  lemma ClockIsPeriodic(cfg: Cfg, e: nat, k: nat)
    requires cfg.Valid() && cfg.algorithm.Stateless?
    ensures k * (cfg.HwMaxTickCount() + 1) >= 0
    ensures OsTime(cfg, e + k * (cfg.HwMaxTickCount() + 1)) == OsTime(cfg, e) + k * (cfg.MaxTickCount() + 1)
  {
    var hwPeriod, period, n, d := cfg.HwMaxTickCount() + 1, cfg.MaxTickCount() + 1, cfg.Numer(), cfg.division;
    calc {
      (e + k * hwPeriod) * d;
      { Expand(e, k * hwPeriod, d); }
      e * d + (k * hwPeriod) * d;
      { MulAssoc(k, hwPeriod, d); MulAssoc(k, period, n); }
      e * d + (k * period) * n;
    }
    DivModShift(e * d, k * period, n);
  }

  lemma HwTimeIsPeriodic(cfg: Cfg, t: nat, k: nat)
    requires cfg.Valid() && cfg.algorithm.Stateless?
    ensures k * (cfg.MaxTickCount() + 1) >= 0
    ensures HwTime(cfg, t + k * (cfg.MaxTickCount() + 1)) == HwTime(cfg, t) + k * (cfg.HwMaxTickCount() + 1)
  {
    var hwPeriod, period, n, d := cfg.HwMaxTickCount() + 1, cfg.MaxTickCount() + 1, cfg.Numer(), cfg.division;
    calc {
      (t + k * period) * n;
      { Expand(t, k * period, n); }
      t * n + (k * period) * n;
      { MulAssoc(k, hwPeriod, d); MulAssoc(k, period, n); }
      t * n + (k * hwPeriod) * d;
    }
    DivModShift(t * n + d - 1, k * hwPeriod, d);
  }

  /** The reduced conversion equals the unbounded rational clock, however many
      times both counts have wrapped around. */
  lemma TickCountIsExact(cfg: Cfg, e: nat)
    requires cfg.Valid() && cfg.algorithm.Stateless?
    ensures e % (cfg.HwMaxTickCount() + 1) <= cfg.HwMaxTickCount()
    ensures TickCount(cfg, e % (cfg.HwMaxTickCount() + 1)) == OsTime(cfg, e) % (cfg.MaxTickCount() + 1)
  {
    var hwPeriod := cfg.HwMaxTickCount() + 1;
    var r, k := e % hwPeriod, e / hwPeriod;
    assert e == r + k * hwPeriod;
    QuotientNonNegative(e, hwPeriod);
    CountInRange(cfg, r);
    ClockIsPeriodic(cfg, r, k);
    DivModShift(OsTime(cfg, r), k, cfg.MaxTickCount() + 1);
    ModSmall(OsTime(cfg, r), cfg.MaxTickCount() + 1);
  }

  /** The 32-bit inverse conversion is the earliest hardware tick of a tick
      count, and its product does not overflow. */
  lemma TickToHwIsEarliest(cfg: Cfg, t: u32)
    requires cfg.Valid() && cfg.algorithm.Stateless? && t <= cfg.MaxTickCount()
    ensures t * cfg.ticksPerMicro < TWO32
    ensures TickToHw(cfg, t) == HwTime(cfg, t) % (cfg.HwMaxTickCount() + 1) <= cfg.HwMaxTickCount()
  {
    assert cfg.division > 0;
    hide HwTime, FractionalTicks, Cfg.Numer, Cfg.Valid;
    var whole, frac := t * cfg.ticksPerMicro, FractionalTicks(cfg, t);
    HwTimeParts(cfg, t);
    HwTimeInRange(cfg, t);
    WholePartFits(cfg, t);
    ModSmall(whole, TWO32);
    Add32Exact(whole, frac);
    WrapToPeriod(whole + frac, cfg.HwMaxTickCount());
  }

  /** The last step of the conversion: a 32-bit value reduced to the period. */
  lemma WrapToPeriod(x: nat, max: u32)
    requires x <= max + 1
    ensures var hw := Wrap32(x);
            (if max != U32_MAX && hw == max + 1 then 0 else hw) == x % (max + 1) <= max
  {
    if x <= max {
      ModSmall(x, max + 1);
      ModSmall(x, TWO32);
    } else {
      DivModUnique(x, max + 1, 1, 0);
    }
  }

  lemma HwTimeParts(cfg: Cfg, t: u32)
    requires cfg.Valid()
    ensures HwTime(cfg, t) == t * cfg.ticksPerMicro + FractionalTicks(cfg, t)
  {
    SplitCeil(t, cfg.ticksPerMicro, cfg.subticksPerMicro, cfg.division);
  }

  lemma HwTimeInRange(cfg: Cfg, t: u32)
    requires cfg.Valid() && cfg.algorithm.Stateless? && t <= cfg.MaxTickCount()
    ensures HwTime(cfg, t) <= cfg.HwMaxTickCount() + 1
  {
    hide CeilDiv, Cfg.Numer;
    CeilInRange(t, cfg.MaxTickCount() + 1, cfg.Numer(), cfg.HwMaxTickCount() + 1, cfg.division);
  }

  lemma CeilInRange(t: nat, period: nat, n: nat, hwPeriod: nat, d: nat)
    requires d > 0 && t <= period && hwPeriod * d == period * n
    ensures CeilDiv(t * n, d) <= hwPeriod
  {
    CeilAdjoint(t * n, d, hwPeriod);
    MulMono(t, period, n);
  }

  lemma SplitCeil(t: nat, whole: nat, sub: nat, d: nat)
    requires d > 0
    ensures CeilDiv(t * (whole * d + sub), d) == t * whole + CeilDiv(t * sub, d)
  {
    calc {
      t * (whole * d + sub);
      { Distribute(t, whole * d, sub); MulAssoc(t, whole, d); }
      (t * whole) * d + t * sub;
    }
    DivModShift(t * sub + d - 1, t * whole, d);
  }

  lemma WholePartFits(cfg: Cfg, t: u32)
    requires cfg.Valid() && cfg.algorithm.Stateless? && t <= cfg.MaxTickCount()
    ensures 0 <= t * cfg.ticksPerMicro < cfg.HwMaxTickCount() + 1
  {
    var hwPeriod, d, n := cfg.HwMaxTickCount() + 1, cfg.division, cfg.Numer();
    var whole := t * cfg.ticksPerMicro;
    if whole >= hwPeriod {
      MulMono(hwPeriod, whole, d);
      MulAssoc(t, cfg.ticksPerMicro, d);
      Distribute(t, cfg.ticksPerMicro * d, cfg.subticksPerMicro);
      MulMono(0, t, cfg.subticksPerMicro);
      assert whole * d <= t * n;
      MulMono(t + 1, cfg.MaxTickCount() + 1, n);
      Expand(t, 1, n);
      assert false;
    }
  }

  /** From any reference point, however often the counts have wrapped, the
      measurement asks for the least hardware wait that sees `ticks` more
      microseconds; nothing revolves until the headroom after it has passed. */
  lemma MeasureIsMinimal(o: Options, e0: nat, ticks: u32)
    requires New(o).Success? && New(o).value.algorithm.Stateless?
    requires 1 <= ticks <= New(o).value.maxTimeout
    ensures var cfg := New(o).value;
            && cfg.Valid() && ticks <= cfg.MaxTickCount()
            && var hwPeriod := cfg.HwMaxTickCount() + 1;
            && e0 % hwPeriod <= cfg.HwMaxTickCount()
            && var m := Measure(cfg, e0 % hwPeriod, ticks);
            && MeasuresExactly(cfg, o.hwHeadroomTicks, e0, ticks, m.hwTicks)
            && m.endHwTickCount == (e0 + m.hwTicks) % hwPeriod
  {
    NewIsExact(o);
    var cfg := New(o).value;
    var h := o.hwHeadroomTicks;
    var hwPeriod, period := cfg.HwMaxTickCount() + 1, cfg.MaxTickCount() + 1;
    TimeoutWithinPeriod(cfg, h, e0, ticks, o);
    TickCountIsExact(cfg, e0);
    WaitIsMinimal(cfg, e0, ticks);
    var target := OsTime(cfg, e0) + ticks;
    var w := HwTime(cfg, target) - e0;
    assert InWindow(cfg, e0, e0 + w);
    // the target's residue, converted back, is the residue of the earliest tick
    var m := Measure(cfg, e0 % hwPeriod, ticks);
    EndOfMeasure(cfg, e0, ticks);
    var x, y := HwTime(cfg, target) % hwPeriod, e0 % hwPeriod;
    SubModIsModular(x, y, cfg.HwMaxTickCount());
    ModSub(HwTime(cfg, target), e0, hwPeriod);
    ModSmall(w, hwPeriod);
    if x == y {
      ModSmall(0, hwPeriod);
      assert false;
    }
    assert m.hwTicks == w;
  }

  lemma EndOfMeasure(cfg: Cfg, e0: nat, ticks: u32)
    requires cfg.Valid() && cfg.algorithm.Stateless? && ticks <= cfg.MaxTickCount()
    requires e0 % (cfg.HwMaxTickCount() + 1) <= cfg.HwMaxTickCount()
    ensures Measure(cfg, e0 % (cfg.HwMaxTickCount() + 1), ticks).endHwTickCount
         == HwTime(cfg, OsTime(cfg, e0) + ticks) % (cfg.HwMaxTickCount() + 1)
  {
    hide OsTime, HwTime, TickCount, TickToHw, Cfg.Numer;
    var max := cfg.MaxTickCount();
    var hw := e0 % (cfg.HwMaxTickCount() + 1);
    TickCountIsExact(cfg, e0);
    CountInRange(cfg, hw);
    AddModIsModular(TickCount(cfg, hw), ticks, max);
    ModAdd(OsTime(cfg, e0), ticks, (max as int) + 1);
    EndResidue(cfg, OsTime(cfg, e0) + ticks);
  }

  /** Converting the residue of a target gives the residue of its earliest tick. */
  lemma EndResidue(cfg: Cfg, target: nat)
    requires cfg.Valid() && cfg.algorithm.Stateless?
    ensures 0 <= target % (cfg.MaxTickCount() + 1) <= cfg.MaxTickCount()
    ensures TickToHw(cfg, target % (cfg.MaxTickCount() + 1)) == HwTime(cfg, target) % (cfg.HwMaxTickCount() + 1)
  {
    hide HwTime, TickToHw, Cfg.Numer;
    var period := cfg.MaxTickCount() + 1;
    var end, k := target % period, target / period;
    QuotientNonNegative(target, period);
    ModBound(target, period);
    assert target == end + k * period;
    TickToHwIsEarliest(cfg, end);
    HwTimeIsPeriodic(cfg, end, k);
    DivModShift(HwTime(cfg, end), k, cfg.HwMaxTickCount() + 1);
  }

  /** Until the headroom has passed, neither count revolves. */
  lemma TimeoutWithinPeriod(cfg: Cfg, h: nat, e0: nat, ticks: u32, o: Options)
    requires New(o).Success? && cfg == New(o).value && cfg.algorithm.Stateless? && h == o.hwHeadroomTicks
    requires cfg.Valid() && 1 <= ticks <= cfg.maxTimeout
    ensures ticks <= cfg.MaxTickCount()
    ensures forall e: nat :: e0 <= e <= HwTime(cfg, OsTime(cfg, e0) + ticks) + h ==> InWindow(cfg, e0, e)
  {
    hide OsTime, HwTime, Cfg.Numer;
    var t, max := OsTime(cfg, e0), cfg.MaxTickCount();
    var late := HwTime(cfg, t + ticks) + h;
    StatelessMaxTimeoutIsLargest(o, ticks);
    assert StatelessSafe(cfg, h, e0, ticks);
    ClockIsMonotone(cfg, HwTime(cfg, t + ticks), late);
    EarliestTick(cfg, HwTime(cfg, t + ticks), t + ticks);
    forall e: nat | e0 <= e <= late
      ensures InWindow(cfg, e0, e)
    {
      ClockIsMonotone(cfg, e0, e);
      ClockIsMonotone(cfg, e, late);
      if e > e0 + cfg.HwMaxTickCount() {
        ClockIsPeriodic(cfg, e0, 1);
        ClockIsMonotone(cfg, e0 + (cfg.HwMaxTickCount() + 1), e);
        assert false;
      }
    }
  }
}
