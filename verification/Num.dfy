/** Integer and rational helpers of the timing core (`num.rs`), with the facts
    about them that the tick conversions rest on. */
module Num {

  /** `gcd128`: Euclid's algorithm. */
  function Gcd(x: nat, y: nat): (g: nat)
    decreases y
  {
    if y == 0 then x else Gcd(y, x % y)
  }

  /** `ceil_div128`. */
  function CeilDiv(x: nat, y: nat): (r: nat)
    requires y > 0
  {
    (x + y - 1) / y
  }

  /** A non-negative fraction that is not necessarily in lowest terms. */
  datatype Ratio = Ratio(numer: nat, denom: nat)

  /** `reduce_ratio128`. */
  function Reduce(r: Ratio): (s: Ratio)
    requires r.denom > 0
  {
    GcdPositive(r.numer, r.denom);
    var g := Gcd(r.numer, r.denom);
    Ratio(r.numer / g, r.denom / g)
  }

  /** `ceil_ratio128`, branch for branch. */
  function Ceil(r: Ratio): (c: nat)
    requires r.denom > 0
  {
    if r.numer % r.denom == 0 then r.numer / r.denom else r.numer / r.denom + 1
  }

  // ----- division as an adjunction -----

  lemma MulMono(a: int, b: int, c: int)
    requires a <= b && 0 <= c
    ensures a * c <= b * c
  {
  }

  /** Floor division is the upper adjoint of multiplication. */
  lemma FloorAdjoint(x: int, d: int, q: int)
    requires d > 0
    ensures q <= x / d <==> q * d <= x
  {
    assert x == d * (x / d) + x % d;
    if q <= x / d {
      MulMono(q, x / d, d);
    } else {
      MulMono(x / d + 1, q, d);
    }
  }

  /** `CeilDiv` is the lower adjoint: `CeilDiv(x, d)` is the least `q` with
      `q * d >= x`. */
  lemma CeilAdjoint(x: nat, d: nat, q: nat)
    requires d > 0
    ensures CeilDiv(x, d) <= q <==> x <= q * d
  {
    FloorAdjoint(x + d - 1, d, q + 1);
    assert (q + 1) * d == q * d + d;
  }

  /** The branching ceiling of a fraction agrees with the rounding division. */
  lemma CeilIsCeilDiv(r: Ratio)
    requires r.denom > 0
    ensures Ceil(r) == CeilDiv(r.numer, r.denom)
  {
    var q := r.numer / r.denom;
    assert r.numer == r.denom * q + r.numer % r.denom;
    if r.numer % r.denom == 0 {
      DivModUnique(r.numer + r.denom - 1, r.denom, q, r.denom - 1);
    } else {
      assert (q + 1) * r.denom == r.denom * q + r.denom;
      DivModUnique(r.numer + r.denom - 1, r.denom, q + 1, r.numer % r.denom - 1);
    }
  }

  lemma DivModUnique(x: int, d: int, q: int, r: int)
    requires d > 0 && x == d * q + r && 0 <= r < d
    ensures x / d == q && x % d == r
  {
    FloorAdjoint(x, d, q);
    FloorAdjoint(x, d, q + 1);
    assert (q + 1) * d == d * q + d;
    assert q * d == d * q;
  }

  /** Adding a multiple of the divisor shifts the quotient and keeps the remainder. */
  lemma DivModShift(x: int, k: int, d: int)
    requires d > 0
    ensures (x + k * d) / d == x / d + k
    ensures (x + k * d) % d == x % d
  {
    assert x == d * (x / d) + x % d;
    assert d * (x / d + k) == d * (x / d) + k * d;
    DivModUnique(x + k * d, d, x / d + k, x % d);
  }

  lemma DivDrop(x: int, k: int, d: int)
    requires d > 0
    ensures (x - k * d) / d == x / d - k
  {
    DivModShift(x, -k, d);
    assert (-k) * d == -(k * d);
  }

  lemma ModBound(x: int, d: int)
    requires d > 0
    ensures 0 <= x % d < d
  {
  }

  lemma ModSmall(x: int, d: int)
    requires 0 <= x < d
    ensures x % d == x && x / d == 0
  {
    DivModUnique(x, d, 0, x);
  }

  // ----- divisibility -----

  ghost predicate Divides(d: int, x: int) {
    exists k: int :: x == k * d
  }

  lemma DividesIntro(d: int, x: int, k: int)
    requires x == k * d
    ensures Divides(d, x)
  {
  }

  lemma DividesIffMod(d: int, x: int)
    requires d > 0
    ensures Divides(d, x) <==> x % d == 0
  {
    if Divides(d, x) {
      var k :| x == k * d;
      DivModShift(0, k, d);
    }
    if x % d == 0 {
      assert x == d * (x / d);
      DividesIntro(d, x, x / d);
    }
  }

  /** A common divisor of two numbers divides every integer combination of them. */
  lemma DividesCombination(d: int, x: int, y: int, a: int, b: int)
    requires Divides(d, x) && Divides(d, y)
    ensures Divides(d, a * x + b * y)
  {
    var k :| x == k * d;
    var l :| y == l * d;
    assert a * x == (a * k) * d by { MulAssoc(a, k, d); }
    assert b * y == (b * l) * d by { MulAssoc(b, l, d); }
    assert (a * k) * d + (b * l) * d == (a * k + b * l) * d;
    DividesIntro(d, a * x + b * y, a * k + b * l);
  }

  lemma MulAssoc(a: int, b: int, c: int)
    ensures a * (b * c) == (a * b) * c
  {
  }

  lemma MulRotate(a: int, b: int, c: int)
    ensures (a * b) * c == (a * c) * b
  {
  }

  /** Scaling by a positive number keeps the order, both ways. */
  lemma ScaleOrder(x: int, y: int, k: int)
    requires k > 0
    ensures x <= y <==> x * k <= y * k
  {
    if x <= y { MulMono(x, y, k); } else { MulMono(y + 1, x, k); Expand(y, 1, k); }
  }

  lemma Expand(a: int, b: int, c: int)
    ensures (a + b) * c == a * c + b * c
  {
  }

  lemma MulSwap(a: int, b: int, c: int)
    ensures a * (b * c) == b * (a * c)
  {
  }

  lemma Distribute(a: int, b: int, c: int)
    ensures a * b + a * c == a * (b + c)
  {
  }

  lemma {:induction false} GcdPositive(x: nat, y: nat)
    requires x > 0 || y > 0
    ensures Gcd(x, y) > 0
    decreases y
  {
    if y > 0 { GcdPositive(y, x % y); }
  }

  /** The result of Euclid's algorithm is an integer combination of its inputs. */
  lemma {:induction false} Bezout(x: nat, y: nat) returns (a: int, b: int)
    ensures a * x + b * y == Gcd(x, y)
    decreases y
  {
    if y == 0 {
      a, b := 1, 0;
    } else {
      var c, d := Bezout(y, x % y);
      var q := x / y;
      assert x % y == x - y * q;
      a, b := d, c - d * q;
      calc {
        c * y + d * (x % y);
        c * y + d * (x - y * q);
        c * y + d * x - d * (y * q);
        { assert d * (y * q) == (d * q) * y; }
        d * x + (c - d * q) * y;
      }
    }
  }

  /** `Gcd` divides both inputs and is divided by every common divisor. */
  lemma {:induction false} GcdIsGreatest(x: nat, y: nat)
    ensures Divides(Gcd(x, y), x) && Divides(Gcd(x, y), y)
    ensures forall d: int :: Divides(d, x) && Divides(d, y) ==> Divides(d, Gcd(x, y))
    decreases y
  {
    if y == 0 {
      DividesIntro(x, x, 1);
      DividesIntro(x, 0, 0);
    } else {
      GcdIsGreatest(y, x % y);
      var q := x / y;
      assert x == q * y + 1 * (x % y);
      DividesCombination(Gcd(x, y), y, x % y, q, 1);
      forall d: int | Divides(d, x) && Divides(d, y)
        ensures Divides(d, Gcd(x, y))
      {
        assert x % y == 1 * x + (-q) * y;
        DividesCombination(d, x, y, 1, -q);
      }
    }
  }

  /** Euclid's lemma: a number coprime to `d` cancels from a product that `d` divides. */
  lemma CoprimeCancels(d: nat, n: nat, i: int)
    requires Gcd(n, d) == 1 && Divides(d, i * n)
    ensures Divides(d, i)
  {
    var a, b := Bezout(n, d);
    DividesIntro(d, i * d, i);
    DividesCombination(d, i * n, i * d, a, b);
    assert a * (i * n) == i * (a * n) by { MulSwap(a, i, n); }
    assert b * (i * d) == i * (b * d) by { MulSwap(b, i, d); }
    Distribute(i, a * n, b * d);
  }

  /** `reduce_ratio128` keeps the value and reaches lowest terms. */
  lemma ReduceIsLowestTerms(r: Ratio)
    requires r.denom > 0
    ensures var s := Reduce(r);
            s.denom > 0 && s.numer * r.denom == r.numer * s.denom && Gcd(s.numer, s.denom) == 1
    ensures r.numer > 0 ==> Reduce(r).numer > 0
    ensures Reduce(r).numer <= r.numer && Reduce(r).denom <= r.denom
  {
    hide Gcd, Divides;
    var g := Gcd(r.numer, r.denom);
    GcdPositive(r.numer, r.denom);
    GcdIsGreatest(r.numer, r.denom);
    var n := ExactQuotient(g, r.numer);
    var d := ExactQuotient(g, r.denom);
    assert n * r.denom == r.numer * d by { MulAssoc(n, d, g); MulRotate(n, d, g); }
    var a, b := Bezout(r.numer, r.denom);
    BezoutScaled(a, b, g, n, d);
    var h := Gcd(n, d);
    GcdIsGreatest(n, d);
    DividesCombination(h, n, d, a, b);
    GcdPositive(n, d);
    DivisorOfOne(h);
    assert n <= r.numer && d <= r.denom by { MulMono(1, g, n); MulMono(1, g, d); }
  }

  lemma ExactQuotient(g: nat, x: nat) returns (q: nat)
    requires g > 0 && Divides(g, x)
    ensures q == x / g && x == q * g && (x > 0 ==> q > 0)
  {
    DividesIffMod(g, x);
    FloorAdjoint(x, g, 0);
    q := x / g;
    assert x == g * q + x % g;
  }

  lemma BezoutScaled(a: int, b: int, g: nat, n: nat, d: nat)
    requires g > 0 && a * (n * g) + b * (d * g) == g
    ensures a * n + b * d == 1
  {
    MulAssoc(a, n, g);
    MulAssoc(b, d, g);
    Expand(a * n, b * d, g);
    MulCancel(g, a * n + b * d, 1);
  }

  lemma MulCancel(g: int, x: int, y: int)
    requires g > 0 && g * x == g * y
    ensures x == y
  {
    if x < y { MulMono(x + 1, y, g); }
    if y < x { MulMono(y + 1, x, g); }
  }

  lemma DivisorOfOne(h: int)
    requires h > 0 && Divides(h, 1)
    ensures h == 1
  {
    var k :| 1 == k * h;
    if h > 1 {
      if k >= 1 { MulMono(1, k, h); }
      if k <= 0 { MulMono(k, 0, h); }
    }
  }

  /** Coprimality survives the first step of Euclid's algorithm. */
  lemma GcdOfRemainder(x: nat, y: nat)
    requires y > 0
    ensures Gcd(x % y, y) == Gcd(x, y)
  {
    assert Gcd(x, y) == Gcd(y, x % y);
    if x % y < y {
      ModSmall(x % y, y);
      assert Gcd(x % y, y) == Gcd(y, (x % y) % y);
    }
  }
}
