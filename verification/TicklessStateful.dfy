/** The stateful tickless algorithm (`tickless.rs`, `TicklessStateCore`): a
    moving reference point, aligned to OS ticks, that must not lose a fraction
    of a hardware tick however many times it is moved. */
module TicklessStateful {
  import opened Num
  import opened Words
  import opened Wrappers
  import opened TicklessCfg
  import opened TicklessClock
  import opened TicklessMeasure

  /** The reference point as the timer stores it. */
  datatype Core = Core(refTickCount: u32, refHwTickCount: u32, refHwSubtickCount: nat)

  const INIT: Core := Core(0, 0, 0)

  /** `reset`. */
  function Reset(core: Core, hwTickCount: u32): (core': Core) {
    core.(refHwTickCount := hwTickCount)
  }

  /** `tick_count`. The subtraction is a 128-bit one that must not underflow. */
  function TickCount(cfg: Cfg, core: Core, hwTickCount: u32): (t: u32)
    requires cfg.Numer() > 0
  {
    var elapsed := Sub32(hwTickCount, core.refHwTickCount) * cfg.division - core.refHwSubtickCount;
    Add32(core.refTickCount, Wrap32(elapsed / cfg.Numer()))
  }

  /** `tick_count_to_hw_tick_count`. */
  function TickToHw(cfg: Cfg, core: Core, tickCount: u32): (hw: u32)
    requires cfg.division > 0
  {
    var micros: nat := Sub32(tickCount, core.refTickCount);
    Add32(core.refHwTickCount,
          Wrap32(CeilDiv(core.refHwSubtickCount + micros * cfg.Numer(), cfg.division)))
  }

  /** `wrapping_add_assign128_multi32` of the subtick counter, which wraps at `division`. */
  function AddSubticks(cfg: Cfg, subtickCount: nat, advance: u32): (r: Wrapped)
    requires cfg.division > 0
    ensures r.value < cfg.division
  {
    var sum: nat := subtickCount + cfg.subticksPerMicro * advance;
    QuotientNonNegative(sum, cfg.division);
    Wrapped(sum % cfg.division, sum / cfg.division)
  }

  /** Moves the reference point to the OS tick count `newRef`. */
  function Advance(cfg: Cfg, core: Core, newRef: u32): (core': Core)
    requires cfg.division > 0
  {
    var advance := Sub32(newRef, core.refTickCount);
    var sum := AddSubticks(cfg, core.refHwSubtickCount, advance);
    var hw := Add32(core.refHwTickCount, Mul32(advance, cfg.ticksPerMicro));
    Core(newRef, Add32(hw, Wrap32(sum.wraps)), sum.value)
  }

  /** `mark_reference`, on values. */
  function MarkReference(cfg: Cfg, core: Core, hwTickCount: u32): (core': Core)
    requires cfg.Numer() > 0 && cfg.division > 0
  {
    Advance(cfg, core, TickCount(cfg, core, hwTickCount))
  }

  /** `mark_reference_and_measure`: the new reference point and the measurement. */
  function Measure(cfg: Cfg, core: Core, hwTickCount: u32, ticks: u32): (r: (Core, Measurement))
    requires cfg.Valid() && cfg.algorithm.Stateful?
  {
    var core' := MarkReference(cfg, core, hwTickCount);
    var end := AddMod(core'.refTickCount, ticks, cfg.MaxTickCount());
    var endHw := TickToHw(cfg, core', end);
    (core', Measurement(endHw, SubMod(endHw, hwTickCount, cfg.HwMaxTickCount())))
  }

  // ----- the exact clock -----

  /** The whole hardware ticks at the microsecond `m`. */
  ghost function WholeHw(cfg: Cfg, m: nat): (q: nat)
    requires cfg.division > 0
  {
    QuotientNonNegative(m * cfg.Numer(), cfg.division);
    m * cfg.Numer() / cfg.division
  }

  /** The fractional hardware tick at the microsecond `m`. */
  ghost function SubHw(cfg: Cfg, m: nat): (r: nat)
    requires cfg.division > 0
    ensures r < cfg.division
  {
    m * cfg.Numer() % cfg.division
  }

  /** The reference point at exactly `m` microseconds after the origin, where the
      hardware tick count was `origin`, all in unbounded arithmetic. */
  ghost function Exact(cfg: Cfg, origin: nat, m: nat): (core: Core)
    requires cfg.division > 0
  {
    Core(Wrap32(m), Wrap32(origin + WholeHw(cfg, m)), SubHw(cfg, m))
  }

  /** The hardware tick `e` is at or after the reference `m`, and so soon after it
      that neither count has revolved. */
  ghost predicate Readable(cfg: Cfg, m: nat, e: nat)
    requires cfg.Valid()
  {
    && m <= OsTime(cfg, e) <= m + U32_MAX
    && e <= WholeHw(cfg, m) + U32_MAX
  }

  lemma WholeBeforeReading(cfg: Cfg, m: nat, e: nat)
    requires cfg.Valid() && m <= OsTime(cfg, e)
    ensures WholeHw(cfg, m) <= e
    ensures var elapsed := (e - WholeHw(cfg, m)) * cfg.division - SubHw(cfg, m);
            elapsed >= 0 && elapsed / cfg.Numer() == OsTime(cfg, e) - m
  {
    FloorAdjoint(e * cfg.division, cfg.Numer(), m);
    SplitBefore(m * cfg.Numer(), cfg.division, e);
    DivDrop(e * cfg.division, m, cfg.Numer());
  }

  lemma SplitBefore(x: nat, d: nat, e: nat)
    requires d > 0 && x <= e * d
    ensures x / d <= e && (e - x / d) * d - x % d == e * d - x
  {
    FloorAdjoint(x, d, e + 1);
    Expand(e, 1, d);
    assert x == d * (x / d) + x % d;
    Expand(e, -(x / d), d);
  }

  /** From an exact reference the reading is the floor of the exact clock, and the
      subtraction does not underflow. */
  lemma TickCountIsExact(cfg: Cfg, origin: nat, m: nat, e: nat)
    requires cfg.Valid() && Readable(cfg, m, e)
    ensures var core := Exact(cfg, origin, m);
            && Sub32(Wrap32(origin + e), core.refHwTickCount) * cfg.division >= core.refHwSubtickCount
            && TickCount(cfg, core, Wrap32(origin + e)) == Wrap32(OsTime(cfg, e))
  {
    hide OsTime, WholeHw, SubHw, Cfg.Numer;
    WholeBeforeReading(cfg, m, e);
    hide Cfg.Valid;
    Sub32Exact(origin + e, origin + WholeHw(cfg, m));
    Add32Exact(m, OsTime(cfg, e) - m);
  }

  /** Moving an exact reference gives the exact reference at the new reading: no
      fraction is lost. */
  lemma MarkReferenceIsExact(cfg: Cfg, origin: nat, m: nat, e: nat)
    requires cfg.Valid() && Readable(cfg, m, e)
    ensures MarkReference(cfg, Exact(cfg, origin, m), Wrap32(origin + e)) == Exact(cfg, origin, OsTime(cfg, e))
  {
    hide OsTime, TickCount, WholeHw, SubHw, Cfg.Numer, Advance;
    TickCountIsExact(cfg, origin, m, e);
    AdvanceFromExact(cfg, origin, m, OsTime(cfg, e));
  }

  lemma AdvanceFromExact(cfg: Cfg, origin: nat, m: nat, t: nat)
    requires cfg.Valid() && 0 <= t - m < TWO32
    ensures Advance(cfg, Exact(cfg, origin, m), Wrap32(t)) == Exact(cfg, origin, t)
  {
    hide WholeHw, SubHw, Cfg.Numer, AddSubticks, Add32, Sub32, Mul32, Wrap32;
    var a: u32 := t - m;
    Sub32Exact(t, m);
    AdvanceIsExact(cfg, m, a);
    hide Cfg.Valid;
    SumOfThree(origin + WholeHw(cfg, m), a, cfg.ticksPerMicro, AddSubticks(cfg, SubHw(cfg, m), a).wraps);
  }

  lemma SumOfThree(x: nat, a: u32, k: u32, carry: nat)
    ensures Add32(Add32(Wrap32(x), Mul32(a, k)), Wrap32(carry)) == Wrap32(x + a * k + carry)
  {
    Add32Exact(x, a * k);
    Add32Exact(x + a * k, carry);
  }

  /** Advancing by `a` microseconds in whole ticks, subticks and a carry. */
  lemma AdvanceIsExact(cfg: Cfg, m: nat, a: u32)
    requires cfg.Valid()
    ensures var sum := AddSubticks(cfg, SubHw(cfg, m), a);
            && WholeHw(cfg, m + a) == WholeHw(cfg, m) + a * cfg.ticksPerMicro + sum.wraps
            && SubHw(cfg, m + a) == sum.value
  {
    var n := cfg.Numer();
    AdvanceWhole(m, a, cfg.ticksPerMicro, cfg.subticksPerMicro, n, cfg.division);
    hide Cfg.Numer, Cfg.Valid;
  }

  lemma AdvanceWhole(m: nat, a: nat, whole: nat, sub: nat, n: nat, d: nat)
    requires d > 0 && n == whole * d + sub
    ensures var sum := m * n % d + sub * a;
            && (m + a) * n / d == m * n / d + a * whole + sum / d
            && (m + a) * n % d == sum % d
  {
    var sum := m * n % d + sub * a;
    Expand(m, a, n);
    Distribute(a, whole * d, sub);
    MulAssoc(a, whole, d);
    var q := m * n / d;
    assert (m + a) * n == sum + (q + a * whole) * d by {
      assert m * n == d * q + m * n % d;
      Expand(q, a * whole, d);
    }
    DivModShift(sum, q + a * whole, d);
  }

  /** Converting a future tick count back gives its earliest hardware tick. */
  lemma TickToHwIsEarliest(cfg: Cfg, origin: nat, m: nat, micros: nat)
    requires cfg.Valid() && micros < TWO32
    ensures TickToHw(cfg, Exact(cfg, origin, m), Wrap32(m + micros)) == Wrap32(origin + HwTime(cfg, m + micros))
  {
    hide HwTime, WholeHw, SubHw, CeilDiv, Cfg.Numer;
    Sub32Exact(m + micros, m);
    HwTimeFromReference(cfg, m, micros);
    var c := CeilDiv(SubHw(cfg, m) + micros * cfg.Numer(), cfg.division);
    Add32Exact(origin + WholeHw(cfg, m), c);
  }

  // ----- measurements and runs -----

  /** Until the headroom after the interrupt has passed, the counts can be read. */
  lemma ReadableUntilLate(o: Options, m: nat, ticks: nat, e: nat)
    requires New(o).Success? && New(o).value.algorithm.Stateful?
    requires New(o).value.Valid() && 1 <= ticks <= New(o).value.maxTimeout
    requires m <= OsTime(New(o).value, e)
    requires e <= HwTime(New(o).value, m + ticks) + o.hwHeadroomTicks
    ensures Readable(New(o).value, m, e)
  {
    hide OsTime, HwTime, WholeHw, SubHw, CeilDiv, Cfg.Numer;
    var cfg := New(o).value;
    var r := SubHw(cfg, m);
    StatefulMaxTimeoutIsLargest(o, ticks);
    hide New, Cfg.Valid;
    assert StatefulSafe(cfg, o.hwHeadroomTicks, r, ticks);
    HwTimeFromReference(cfg, m, ticks);
    WholeBeforeReading(cfg, m, e);
    var late := CeilDiv(r + ticks * cfg.Numer(), cfg.division) + o.hwHeadroomTicks;
    MulMono(e - WholeHw(cfg, m), late, cfg.division);
    QuotientMono((e - WholeHw(cfg, m)) * cfg.division - r, late * cfg.division - r, cfg.Numer());
  }

  lemma QuotientMono(x: int, y: int, n: int)
    requires n > 0 && x <= y
    ensures x / n <= y / n
  {
    FloorAdjoint(x, n, x / n);
    FloorAdjoint(y, n, x / n);
  }

  lemma HwTimeFromReference(cfg: Cfg, m: nat, micros: nat)
    requires cfg.Valid()
    ensures HwTime(cfg, m + micros)
         == WholeHw(cfg, m) + CeilDiv(SubHw(cfg, m) + micros * cfg.Numer(), cfg.division)
  {
    var d, n := cfg.division, cfg.Numer();
    var q, r := WholeHw(cfg, m), m * n % d;
    assert m * n == d * q + r;
    Expand(m, micros, n);
    DivModShift(r + micros * n + d - 1, q, d);
  }

  /** One measurement from an exact state: the state stays exact, the wait is
      minimal, and the counts stay readable until the headroom has passed. */
  lemma MeasureIsMinimal(o: Options, origin: nat, m: nat, e0: nat, ticks: u32)
    requires New(o).Success? && New(o).value.algorithm.Stateful? && New(o).value.Valid()
    requires Readable(New(o).value, m, e0)
    requires 1 <= ticks <= New(o).value.maxTimeout
    ensures var cfg := New(o).value;
            var (core', meas) := Measure(cfg, Exact(cfg, origin, m), Wrap32(origin + e0), ticks);
            && core' == Exact(cfg, origin, OsTime(cfg, e0))
            && MeasuresExactly(cfg, o.hwHeadroomTicks, e0, ticks, meas.hwTicks)
            && meas.endHwTickCount == Wrap32(origin + e0 + meas.hwTicks)
            && (forall e: nat :: e0 <= e <= e0 + meas.hwTicks + o.hwHeadroomTicks ==>
                  Readable(cfg, OsTime(cfg, e0), e))
  {
    hide OsTime, HwTime, New, Measure, Exact, Readable, Cfg.Numer, Gcd, Wrap32;
    var cfg := New(o).value;
    var target := OsTime(cfg, e0) + ticks;
    WaitIsMinimal(cfg, e0, ticks);
    WindowUntilLate(o, e0, ticks);
    assert InWindow(cfg, e0, HwTime(cfg, target));
    MeasureIs(cfg, origin, m, e0, ticks);
  }

  /** Until the headroom has passed, neither count revolves. */
  lemma WindowUntilLate(o: Options, e0: nat, ticks: u32)
    requires New(o).Success? && New(o).value.algorithm.Stateful? && New(o).value.Valid()
    requires 1 <= ticks <= New(o).value.maxTimeout
    ensures var cfg := New(o).value;
            forall e: nat :: e0 <= e <= HwTime(cfg, OsTime(cfg, e0) + ticks) + o.hwHeadroomTicks ==>
              Readable(cfg, OsTime(cfg, e0), e) && InWindow(cfg, e0, e)
  {
    hide OsTime, HwTime, New, Cfg.Numer, Gcd;
    var cfg := New(o).value;
    var t := OsTime(cfg, e0);
    WholeBeforeReading(cfg, t, e0);
    forall e: nat | e0 <= e <= HwTime(cfg, t + ticks) + o.hwHeadroomTicks
      ensures Readable(cfg, t, e) && InWindow(cfg, e0, e)
    {
      ClockIsMonotone(cfg, e0, e);
      ReadableUntilLate(o, t, ticks, e);
    }
  }

  /** What a measurement from an exact state returns. */
  lemma MeasureIs(cfg: Cfg, origin: nat, m: nat, e0: nat, ticks: u32)
    requires cfg.Valid() && cfg.algorithm.Stateful? && Readable(cfg, m, e0)
    requires 0 <= HwTime(cfg, OsTime(cfg, e0) + ticks) - e0 < TWO32
    requires Readable(cfg, OsTime(cfg, e0), HwTime(cfg, OsTime(cfg, e0) + ticks))
    ensures var end := HwTime(cfg, OsTime(cfg, e0) + ticks);
            Measure(cfg, Exact(cfg, origin, m), Wrap32(origin + e0), ticks)
            == (Exact(cfg, origin, OsTime(cfg, e0)), Measurement(Wrap32(origin + end), end - e0))
  {
    hide OsTime, HwTime, MarkReference, TickToHw, Readable, Wrap32, Cfg.Numer, Gcd, AddMod;
    var t := OsTime(cfg, e0);
    MarkReferenceIsExact(cfg, origin, m, e0);
    AddModFull(t, ticks);
    TickToHwIsEarliest(cfg, origin, t, ticks);
    Sub32Exact(origin + HwTime(cfg, t + ticks), origin + e0);
  }

  lemma AddModFull(t: nat, ticks: u32)
    ensures AddMod(Wrap32(t), ticks, U32_MAX) == Wrap32(t + ticks)
  {
    ModSmall(ticks, TWO32);
    Add32Exact(t, ticks);
  }

  /** One use of the timer: measure `timeout` microseconds, then come back at some
      hardware tick `after` the measurement started. */
  datatype Use = Use(timeout: u32, after: nat)

  /** The client comes back no later than the documented headroom allows. */
  ghost predicate Permitted(o: Options, core: Core, hw: u32, u: Use)
    requires New(o).Success? && New(o).value.algorithm.Stateful? && New(o).value.Valid()
  {
    var cfg := New(o).value;
    && 1 <= u.timeout <= cfg.maxTimeout
    && u.after <= Measure(cfg, core, hw, u.timeout).1.hwTicks + o.hwHeadroomTicks
  }

  /** All uses in a run keep to the documented conditions; the hardware has
      counted `e` ticks since the origin. */
  ghost predicate PermittedRun(o: Options, origin: nat, core: Core, e: nat, uses: seq<Use>)
    requires New(o).Success? && New(o).value.algorithm.Stateful? && New(o).value.Valid()
    decreases |uses|
  {
    uses == [] ||
    (Permitted(o, core, Wrap32(origin + e), uses[0]) &&
     var core' := Measure(New(o).value, core, Wrap32(origin + e), uses[0].timeout).0;
     PermittedRun(o, origin, core', e + uses[0].after, uses[1..]))
  }

  ghost function ElapsedAfter(e: nat, uses: seq<Use>): (e': nat)
    decreases |uses|
  {
    if uses == [] then e else ElapsedAfter(e + uses[0].after, uses[1..])
  }

  ghost function CoreAfter(o: Options, origin: nat, core: Core, e: nat, uses: seq<Use>): (core': Core)
    requires New(o).Success? && New(o).value.algorithm.Stateful? && New(o).value.Valid()
    decreases |uses|
  {
    if uses == [] then core else
      CoreAfter(o, origin, Measure(New(o).value, core, Wrap32(origin + e), uses[0].timeout).0,
                e + uses[0].after, uses[1..])
  }

  /** Over every run of measurements, of any length, the reading is the floor of
      the exact rational clock modulo 2^32: the algorithm never drifts. */
  lemma {:induction false} RunNeverDrifts(o: Options, origin: nat, m: nat, e: nat, uses: seq<Use>)
    requires New(o).Success? && New(o).value.algorithm.Stateful? && New(o).value.Valid()
    requires Readable(New(o).value, m, e)
    requires PermittedRun(o, origin, Exact(New(o).value, origin, m), e, uses)
    ensures var cfg := New(o).value;
            var core := CoreAfter(o, origin, Exact(cfg, origin, m), e, uses);
            var end := ElapsedAfter(e, uses);
            && TickCount(cfg, core, Wrap32(origin + end)) == Wrap32(OsTime(cfg, end))
            && exists m': nat :: Readable(cfg, m', end) && core == Exact(cfg, origin, m')
    decreases |uses|
  {
    hide New, Exact, Readable, TickCount, Measure, OsTime, HwTime, Wrap32, Gcd;
    var cfg := New(o).value;
    if uses == [] {
      TickCountIsExact(cfg, origin, m, e);
    } else {
      MeasureIsMinimal(o, origin, m, e, uses[0].timeout);
      RunNeverDrifts(o, origin, OsTime(cfg, e), e + uses[0].after, uses[1..]);
    }
  }

  /** A fresh timer reset at any hardware tick count starts exact and readable. */
  lemma ResetIsExact(cfg: Cfg, hw: u32)
    requires cfg.Valid()
    ensures Reset(INIT, hw) == Exact(cfg, hw, 0) && Readable(cfg, 0, 0)
  {
    DivModUnique(0 * cfg.Numer(), cfg.division, 0, 0);
    DivModUnique(0 * cfg.division, cfg.Numer(), 0, 0);
    ModSmall(hw, TWO32);
  }

  /** The state of the stateful tickless timer. */
  class TicklessStateCore {
    var refTickCount: u32
    var refHwTickCount: u32
    var refHwSubtickCount: u64
    /** The hardware tick count at the origin and the microseconds from there to
        the reference point, without bounds. */
    ghost var origin: nat
    ghost var micros: nat

    function Value(): (core: Core)
      reads this
    {
      Core(refTickCount, refHwTickCount, refHwSubtickCount)
    }

    ghost predicate Valid(cfg: Cfg)
      reads this
    {
      && cfg.Valid() && cfg.algorithm.Stateful?
      && Value() == Exact(cfg, origin, micros)
    }

    constructor (cfg: Cfg)
      requires cfg.Valid() && cfg.algorithm.Stateful?
      ensures Valid(cfg) && origin == 0 && micros == 0 && Value() == INIT
    {
      refTickCount, refHwTickCount, refHwSubtickCount := 0, 0, 0;
      origin, micros := 0, 0;
      new;
      ResetIsExact(cfg, 0);
    }

    /** `reset`, allowed in the initial state only. */
    method Reset(cfg: Cfg, hwTickCount: u32)
      requires Valid(cfg) && Value() == INIT
      modifies this
      ensures Valid(cfg) && origin == hwTickCount && micros == 0
    {
      refHwTickCount := hwTickCount;
      origin, micros := hwTickCount, 0;
      ResetIsExact(cfg, hwTickCount);
    }

    /** `tick_count`, `e` hardware ticks after the origin. */
    method TickCount(cfg: Cfg, hwTickCount: u32, ghost e: nat) returns (t: u32)
      requires Valid(cfg) && hwTickCount == Wrap32(origin + e) && Readable(cfg, micros, e)
      ensures t == Wrap32(OsTime(cfg, e))
    {
      TickCountIsExact(cfg, origin, micros, e);
      var elapsed: nat := Sub32(hwTickCount, refHwTickCount) * cfg.division - refHwSubtickCount;
      t := Add32(refTickCount, Wrap32(elapsed / cfg.Numer()));
    }

    /** `mark_reference`: moves the reference to the current microsecond. */
    method MarkReference(cfg: Cfg, hwTickCount: u32, ghost e: nat) returns (t: u32)
      requires Valid(cfg) && hwTickCount == Wrap32(origin + e) && Readable(cfg, micros, e)
      modifies this
      ensures Valid(cfg) && origin == old(origin) && micros == OsTime(cfg, e)
      ensures t == Wrap32(OsTime(cfg, e))
    {
      hide OsTime, WholeHw, SubHw, Cfg.Numer, AddSubticks, Mul32;
      MarkReferenceIsExact(cfg, origin, micros, e);
      t := TickCount(cfg, hwTickCount, e);
      hide Cfg.Valid;
      var advance := Sub32(t, refTickCount);
      refTickCount := t;
      refHwTickCount := Add32(refHwTickCount, Mul32(advance, cfg.ticksPerMicro));
      var sum := AddSubticks(cfg, refHwSubtickCount, advance);
      refHwSubtickCount := sum.value;
      refHwTickCount := Add32(refHwTickCount, Wrap32(sum.wraps));
      micros := OsTime(cfg, e);
    }

    /** `mark_reference_and_measure`. */
    method MarkReferenceAndMeasure(cfg: Cfg, hwTickCount: u32, ticks: u32, ghost o: Options, ghost e: nat)
      returns (m: Measurement)
      requires New(o) == Success(cfg) && 1 <= ticks <= cfg.maxTimeout
      requires Valid(cfg) && hwTickCount == Wrap32(origin + e) && Readable(cfg, micros, e)
      modifies this
      ensures Valid(cfg) && origin == old(origin) && micros == OsTime(cfg, e)
      ensures MeasuresExactly(cfg, o.hwHeadroomTicks, e, ticks, m.hwTicks)
      ensures m.endHwTickCount == Wrap32(origin + e + m.hwTicks)
      ensures forall e': nat :: e <= e' <= e + m.hwTicks + o.hwHeadroomTicks ==> Readable(cfg, micros, e')
    {
      hide New, Gcd, OsTime, HwTime, AddMod, SubMod, TickToHw;
      MeasureIsMinimal(o, origin, micros, e, ticks);
      MarkReferenceIsExact(cfg, origin, micros, e);
      var cur := MarkReference(cfg, hwTickCount, e);
      var end := AddMod(cur, ticks, cfg.MaxTickCount());
      var endHw := TickToHw(cfg, Value(), end);
      m := Measurement(endHw, SubMod(endHw, hwTickCount, cfg.HwMaxTickCount()));
    }
  }
}
