/** What a measurement of a time interval has to deliver, for either tickless
    algorithm, and the modular helpers of `mark_reference_and_measure`. */
module TicklessMeasure {
  import opened Num
  import opened Words
  import opened TicklessCfg
  import opened TicklessClock

  /** `add_mod_u32`. */
  function AddMod(x: u32, y: u32, max: u32): (r: u32)
    requires x <= max && y <= max
  {
    if max == U32_MAX || max - x >= y then Add32(x, y) else Add32(Add32(x, y), U32_MAX - max)
  }

  /** `sub_mod_u32`. */
  function SubMod(x: u32, y: u32, max: u32): (r: u32)
    requires x <= max && y <= max
  {
    if max == U32_MAX || y < x then Sub32(x, y) else Sub32(Sub32(x, y), U32_MAX - max)
  }

  lemma AddModIsModular(x: u32, y: u32, max: u32)
    requires x <= max && y <= max
    ensures AddMod(x, y, max) == (x + y) % (max + 1)
  {
    hide Wrap32;
    if x + y <= max {
      ModSmall(x + y, max + 1);
      SmallWord(x + y);
    } else {
      DivModUnique(x + y, max + 1, 1, x + y - (max + 1));
      SumPastMax(x, y, max);
    }
  }

  /** Past the maximum, the second wrapping addition skips the unused values. */
  lemma SumPastMax(x: u32, y: u32, max: u32)
    requires x <= max && y <= max && x + y > max
    ensures Add32(Add32(x, y), U32_MAX - max) == x + y - (max + 1)
    ensures max == U32_MAX ==> Add32(x, y) == x + y - TWO32
  {
    var skip := U32_MAX - max;
    ModAdd(x + y, skip, TWO32);
    DivModUnique(x + y + skip, TWO32, 1, x + y - (max + 1));
  }

  /** `sub_mod_u32` is subtraction modulo `max + 1`, except that equal operands
      give a full revolution when the modulus is not 2^32. */
  lemma SubModIsModular(x: u32, y: u32, max: u32)
    requires x <= max && y <= max
    ensures x != y || max == U32_MAX ==> SubMod(x, y, max) == (x - y) % (max + 1)
    ensures x == y && max != U32_MAX ==> SubMod(x, y, max) == max + 1
  {
    if y < x {
      ModSmall(x - y, max + 1);
      ModSmall(x - y, TWO32);
    } else {
      DivModUnique(x - y, TWO32, if x == y then 0 else -1, if x == y then 0 else x - y + TWO32);
      DivModUnique(x - y, max + 1, if x == y then 0 else -1, if x == y then 0 else x - y + (max + 1));
      ModSub(x - y, U32_MAX - max, TWO32);
      if max != U32_MAX {
        DivModUnique(x - y - (U32_MAX - max), TWO32, -1, x - y + max + 1);
      }
    }
  }

  datatype Measurement = Measurement(endHwTickCount: u32, hwTicks: u32)

  /** Waiting `w` hardware ticks from `e0` is the earliest way to see `ticks` more
      microseconds on the exact clock, and being up to `h` hardware ticks late
      after that loses track of neither count. */
  ghost predicate MeasuresExactly(cfg: Cfg, h: nat, e0: nat, ticks: nat, w: nat)
    requires cfg.Valid()
  {
    && OsTime(cfg, e0 + w) >= OsTime(cfg, e0) + ticks
    && (forall e: nat :: e0 <= e < e0 + w ==> OsTime(cfg, e) < OsTime(cfg, e0) + ticks)
    && (forall e: nat :: e0 <= e <= e0 + w + h ==> InWindow(cfg, e0, e))
  }

  /** Neither count has revolved between `e0` and `e`. */
  ghost predicate InWindow(cfg: Cfg, e0: nat, e: nat)
    requires cfg.Valid()
  {
    && OsTime(cfg, e0) <= OsTime(cfg, e) <= OsTime(cfg, e0) + cfg.MaxTickCount()
    && e0 <= e <= e0 + cfg.HwMaxTickCount()
  }

  /** A wait computed with `HwTime` is minimal, and at least one hardware tick. */
  lemma WaitIsMinimal(cfg: Cfg, e0: nat, ticks: nat)
    requires cfg.Valid() && ticks > 0
    ensures var w := HwTime(cfg, OsTime(cfg, e0) + ticks) - e0;
            && w > 0
            && OsTime(cfg, e0 + w) >= OsTime(cfg, e0) + ticks
            && (forall e: nat :: e0 <= e < e0 + w ==> OsTime(cfg, e) < OsTime(cfg, e0) + ticks)
  {
    var target := OsTime(cfg, e0) + ticks;
    EarliestTick(cfg, e0, target);
    EarliestTick(cfg, HwTime(cfg, target), target);
    forall e: nat | e < HwTime(cfg, target)
      ensures OsTime(cfg, e) < target
    {
      EarliestTick(cfg, e, target);
    }
  }
}
