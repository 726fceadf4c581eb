/** Fixed-width unsigned integers and the wrapping operations on them. */
module Words {
  import opened Num

  const TWO31: nat := 0x8000_0000
  const TWO32: nat := 0x1_0000_0000
  const TWO64: nat := 0x1_0000_0000_0000_0000
  const TWO128: nat := TWO64 * TWO64
  const U32_MAX: nat := TWO32 - 1
  const U64_MAX: nat := TWO64 - 1

  type u32 = x: nat | x < TWO32
  type u64 = x: nat | x < TWO64

  /** The 32-bit word congruent to `x` (an `as u32` cast). */
  function Wrap32(x: int): (w: u32) {
    x % TWO32
  }

  function Add32(x: u32, y: u32): (w: u32) {
    Wrap32(x + y)
  }

  function Sub32(x: u32, y: u32): (w: u32) {
    Wrap32(x - y)
  }

  function Mul32(x: u32, y: u32): (w: u32) {
    Wrap32(x * y)
  }

  /** `saturating_sub`. */
  function SatSub(x: nat, y: nat): (d: nat) {
    if x < y then 0 else x - y
  }

  function Min(x: nat, y: nat): (m: nat) {
    if x <= y then x else y
  }

  lemma SmallWord(x: u32)
    ensures Wrap32(x) == x
  {
    ModSmall(x, TWO32);
  }

  /** Reducing an operand first does not change a sum's residue. */
  lemma ModAdd(x: int, y: int, d: int)
    requires d > 0
    ensures (x % d + y) % d == (x + y) % d
  {
    assert x == x % d + (x / d) * d;
    DivModShift(x % d + y, x / d, d);
  }

  /** Reducing either operand first does not change a difference's residue. */
  lemma ModSub(x: int, y: int, d: int)
    requires d > 0
    ensures (x % d - y) % d == (x - y) % d
    ensures (x - y % d) % d == (x - y) % d
    ensures (x % d - y % d) % d == (x - y) % d
  {
    ModAdd(x, -y, d);
    ModSubRight(x, y, d);
    ModSubRight(x % d, y, d);
  }

  lemma ModSubRight(x: int, y: int, d: int)
    requires d > 0
    ensures (x - y % d) % d == (x - y) % d
  {
    assert y == y % d + (y / d) * d;
    DivModShift(x - y, y / d, d);
  }

  /** Wrapping arithmetic on residues is exact arithmetic on the numbers behind them. */
  lemma Add32Exact(x: int, y: int)
    ensures Add32(Wrap32(x), Wrap32(y)) == Wrap32(x + y)
  {
    ModAdd(x, Wrap32(y), TWO32);
    ModAdd(y, x, TWO32);
  }

  /** A wrapping difference recovers any true difference below 2^32. */
  lemma Sub32Exact(x: int, y: int)
    requires 0 <= x - y < TWO32
    ensures Sub32(Wrap32(x), Wrap32(y)) == x - y
  {
    ModSub(x, y, TWO32);
    ModSmall(x - y, TWO32);
  }

  // ----- the wrapping counters of `wrapping.rs` -----

  /** The outcome of adding to a counter that wraps past a maximum. */
  datatype Wrapped = Wrapped(value: nat, wraps: nat)

  /** `wrapping_add_assign64` of a counter with values `0..=max`, stored in a
      word with values `0..=wordMax`: the zero-width counter, the full-width
      word, the power-of-two case and the general case. */
  function WrappingAdd64(max: u64, wordMax: u64, isPowerOfTwo: bool, inner: u64, rhs: u64): (r: Wrapped)
    requires max <= wordMax && inner <= max && rhs <= max
    requires isPowerOfTwo && max < wordMax ==> max + max <= wordMax
  {
    if max == 0 then
      Wrapped(0, if rhs != 0 then 1 else 0)
    else if max == wordMax then
      Wrapped((inner + rhs) % (wordMax + 1), (inner + rhs) / (wordMax + 1))
    else if isPowerOfTwo then
      Wrapped((inner + rhs) % (max + 1), if inner + rhs >= max + 1 then 1 else 0)
    else if max - inner >= rhs then
      Wrapped(inner + rhs, 0)
    else
      Wrapped(rhs - (max - inner) - 1, 1)
  }

  /** Every representation computes the same thing: one addition modulo `max + 1`
      that reports whether it wrapped, and no intermediate exceeds the word. */
  lemma WrappingAdd64IsModular(max: u64, wordMax: u64, isPowerOfTwo: bool, inner: u64, rhs: u64)
    requires max <= wordMax && inner <= max && rhs <= max
    requires isPowerOfTwo && max < wordMax ==> max + max <= wordMax
    ensures var r := WrappingAdd64(max, wordMax, isPowerOfTwo, inner, rhs);
            r == Wrapped((inner + rhs) % (max + 1), (inner + rhs) / (max + 1)) && r.wraps <= 1
    ensures max < wordMax && (isPowerOfTwo || max - inner >= rhs) ==> inner + rhs <= wordMax
  {
    if inner + rhs <= max {
      DivModUnique(inner + rhs, max + 1, 0, inner + rhs);
    } else {
      DivModUnique(inner + rhs, max + 1, 1, inner + rhs - (max + 1));
    }
  }
}
