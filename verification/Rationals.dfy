/**
 Reduction of fractions and their order, as the rate oracle computes them (src/quotes/oracle.rs `gcd`,
 `cmp`).
 */
module Rationals {
  import opened Wrappers

  datatype Fraction = Fraction(num: nat, den: nat)

  function GcdOf(a: nat, b: nat): nat
    decreases b
  {
    if b == 0 then a else GcdOf(b, a % b)
  }

  method Gcd(x: nat, y: nat) returns (g: nat)
    ensures g == GcdOf(x, y)
    ensures Divides(g, x) && Divides(g, y)
    ensures forall k: nat :: Divides(k, x) && Divides(k, y) ==> Divides(k, g)
  {
    var a, b := x, y;
    while b != 0
      invariant GcdOf(a, b) == GcdOf(x, y)
      decreases b
    {
      a, b := b, a % b;
    }
    g := a;
    GcdIsGreatest(x, y);
  }

  ghost predicate Divides(k: nat, n: nat) { exists m: nat :: n == k * m }

  lemma DividesSum(k: nat, a: nat, b: nat, q: nat)
    requires Divides(k, a) && Divides(k, b)
    ensures Divides(k, a * q + b)
  {
    var x: nat :| a == k * x;
    var y: nat :| b == k * y;
    Regrouped(k, x, q);
    SumOfMultiples(k, x * q, y);
  }

  lemma SumOfMultiples(k: nat, y: nat, z: nat)
    ensures Divides(k, k * y + k * z)
  {
    assert k * y + k * z == k * (y + z);
  }

  lemma DividesDifference(k: nat, a: nat, b: nat, q: nat)
    requires Divides(k, a) && Divides(k, a * q + b)
    ensures Divides(k, b)
  {
    var x: nat :| a == k * x;
    var y: nat :| a * q + b == k * y;
    Regrouped(k, x, q);
    DifferenceOfMultiples(k, x * q, y, b);
  }

  lemma DifferenceOfMultiples(k: nat, y: nat, z: nat, b: nat)
    requires k * y + b == k * z
    ensures Divides(k, b)
  {
    assert b == k * (z - y);
    if k == 0 || z < y {
      if k > 0 {
        SignOf(k, z - y);
      }
      assert b == k * 0;
    } else {
      var m: nat := z - y;
      assert b == k * m;
    }
  }

  lemma SignOf(k: nat, x: int)
    requires k > 0
    ensures x >= 1 ==> k * x >= k
    ensures x <= 0 ==> k * x <= 0
    ensures x <= -1 ==> k * x <= -(k as int)
  {
    if x >= 1 {
      assert k * (x - 1) >= 0;
    } else if x <= -1 {
      assert k * (x + 1) <= 0;
    }
  }

  /** Euclid's loop returns a common divisor, and every common divisor divides it. */
  lemma {:induction false} GcdIsGreatest(a: nat, b: nat)
    ensures Divides(GcdOf(a, b), a) && Divides(GcdOf(a, b), b)
    ensures forall k: nat :: Divides(k, a) && Divides(k, b) ==> Divides(k, GcdOf(a, b))
    ensures a > 0 || b > 0 ==> GcdOf(a, b) > 0
    decreases b
  {
    if b == 0 {
      assert a == a * 1 && 0 == a * 0;
    } else {
      var g, q, r := GcdOf(a, b), a / b, a % b;
      assert a == b * q + r;
      GcdIsGreatest(b, r);
      DividesSum(g, b, r, q);
      forall k: nat | Divides(k, a) && Divides(k, b) ensures Divides(k, g) {
        DividesDifference(k, b, r, q);
      }
    }
  }

  function Reduce(n: nat, d: nat): Fraction
    requires d > 0
  {
    GcdIsGreatest(n, d);
    var g := GcdOf(n, d);
    Fraction(n / g, d / g)
  }

  predicate LowestTerms(f: Fraction) { f.den > 0 && GcdOf(f.num, f.den) == 1 }

  /** Both sides have the same value. */
  predicate SameValue(f: Fraction, g: Fraction) { f.num * g.den == g.num * f.den }

  lemma Quotient(k: nat, m: nat)
    requires k > 0
    ensures k * m / k == m
  {
    var q, r := k * m / k, k * m % k;
    assert k * m == k * q + r;
    assert k * (m - q) == k * m - k * q;
    SignOf(k, m - q);
  }

  lemma Cancel(k: nat, x: int, y: int)
    requires k > 0 && k * x == k * y
    ensures x == y
  {
    assert k * (x - y) == k * x - k * y;
    SignOf(k, x - y);
  }

  lemma DividesProduct(g: nat, h: nat, x: nat)
    requires Divides(h, x)
    ensures Divides(g * h, g * x)
  {
    var u: nat :| x == h * u;
    Regrouped(g, h, u);
  }

  lemma OnlyUnitFactor(g: nat, h: nat)
    requires g > 0 && Divides(g * h, g)
    ensures h == 1
  {
    var w: nat :| g == (g * h) * w;
    Regrouped(g, h, w);
    Cancel(g, h * w, 1);
  }

  /** What is left after dividing by the greatest common divisor has no common factor. */
  lemma QuotientsAreCoprime(n: nat, d: nat, x: nat, y: nat)
    requires d > 0 && n == GcdOf(n, d) * x && d == GcdOf(n, d) * y
    ensures GcdOf(x, y) == 1
  {
    var g, h := GcdOf(n, d), GcdOf(x, y);
    GcdIsGreatest(n, d);
    GcdIsGreatest(x, y);
    DividesProduct(g, h, x);
    DividesProduct(g, h, y);
    OnlyUnitFactor(g, h);
  }

  lemma Regrouped(g: int, h: int, u: int)
    ensures g * (h * u) == (g * h) * u
  {
  }

  /** The reduced fraction times the greatest common divisor is the fraction. */
  lemma Quotients(n: nat, d: nat)
    requires d > 0
    ensures var g, r := GcdOf(n, d), Reduce(n, d); g > 0 && n == g * r.num && d == g * r.den
  {
    GcdIsGreatest(n, d);
    var g := GcdOf(n, d);
    var x: nat :| n == g * x;
    var y: nat :| d == g * y;
    Quotient(g, x);
    Quotient(g, y);
  }

  lemma CommonFactor(g: nat, x: nat, y: nat)
    ensures SameValue(Fraction(x, y), Fraction(g * x, g * y))
  {
    assert x * (g * y) == (g * x) * y;
  }

  /** Reduction keeps the value exactly and leaves no common factor. */
  lemma ReduceIsExact(n: nat, d: nat)
    requires d > 0
    ensures LowestTerms(Reduce(n, d)) && SameValue(Reduce(n, d), Fraction(n, d))
    ensures Reduce(n, d).den <= d && Reduce(n, d).num <= n
    ensures n > 0 ==> Reduce(n, d).num > 0
  {
    Quotients(n, d);
    var g, r := GcdOf(n, d), Reduce(n, d);
    Positive(g, r.num);
    Positive(g, r.den);
    QuotientsAreCoprime(n, d, r.num, r.den);
    CommonFactor(g, r.num, r.den);
  }

  lemma Positive(g: nat, x: nat)
    requires g > 0
    ensures x <= g * x && (g * x > 0 ==> x > 0)
  {
    AtMost(g, x);
  }

  lemma AtMost(g: nat, x: nat)
    requires g > 0
    ensures x <= g * x
  {
    assert (g - 1) * x >= 0;
  }

  // --- A value has one reduced form --------------------------------------------------

  /** Coefficients with a * x + b * y == GcdOf(a, b). */
  function Bezout(a: nat, b: nat): (int, int)
    decreases b
  {
    if b == 0 then (1, 0)
    else
      var (x, y) := Bezout(b, a % b);
      (y, x - (a / b) * y)
  }

  lemma {:induction false} BezoutHolds(a: nat, b: nat)
    ensures a * Bezout(a, b).0 + b * Bezout(a, b).1 == GcdOf(a, b)
    decreases b
  {
    if b != 0 {
      BezoutHolds(b, a % b);
      var (x, y) := Bezout(b, a % b);
      BezoutStep(a, b, a / b, a % b, x, y);
    } else {
      assert a * 1 + 0 * 0 == a;
    }
  }

  lemma BezoutStep(a: int, b: int, q: int, r: int, x: int, y: int)
    requires a == b * q + r
    ensures a * y + b * (x - q * y) == b * x + r * y
  {
  }

  lemma GaussStep(a: int, b: int, c: int, d: int, x: int, y: int)
    requires a * x + b * y == 1 && a * d == c * b
    ensures d == b * (c * x + d * y)
  {
  }

  /** If b divides d * a and has no factor in common with a, it divides d. */
  lemma Gauss(a: nat, b: nat, c: nat, d: nat)
    requires GcdOf(a, b) == 1 && a * d == c * b
    ensures exists k: int :: d == b * k
  {
    BezoutHolds(a, b);
    var (x, y) := Bezout(a, b);
    GaussStep(a, b, c, d, x, y);
  }

  /** Equal values in lowest terms are the same pair. */
  lemma LowestTermsAreUnique(f: Fraction, g: Fraction)
    requires LowestTerms(f) && LowestTerms(g)
    ensures SameValue(f, g) <==> f == g
  {
    if SameValue(f, g) {
      Gauss(f.num, f.den, g.num, g.den);
      Gauss(g.num, g.den, f.num, f.den);
      var j: int :| g.den == f.den * j;
      var k: int :| f.den == g.den * k;
      Multiples(f.den, g.den, j, k);
      assert f.den * f.num == f.den * g.num;
      Cancel(f.den, f.num, g.num);
    }
  }

  lemma Multiples(b: nat, d: nat, j: int, k: int)
    requires b > 0 && d > 0 && d == b * j && b == d * k
    ensures b == d
  {
    SignOf(b, j);
    SignOf(d, k);
  }

  // --- Order -------------------------------------------------------------------------

  datatype Ordering = Less | Equal | Greater

  /** `cmp` on u64 pairs. */
  function Cmp(a: Fraction, b: Fraction): Ordering {
    if a.num * b.den < b.num * a.den then Less
    else if a.num * b.den == b.num * a.den then Equal
    else Greater
  }

  function Value(f: Fraction): real
    requires f.den > 0
  {
    f.num as real / f.den as real
  }

  /** `cmp` is the order of the values. */
  lemma CmpIsOrder(a: Fraction, b: Fraction)
    requires a.den > 0 && b.den > 0
    ensures Cmp(a, b) == if Value(a) < Value(b) then Less else if Value(a) == Value(b) then Equal else Greater
  {
    CrossMultiply(a.num as real, a.den as real, b.num as real, b.den as real);
    assert (a.num * b.den) as real == a.num as real * b.den as real;
    assert (b.num * a.den) as real == b.num as real * a.den as real;
  }

  /** Cross multiplication never leaves u128 and is the order of the values. */
  lemma {:induction false} CmpIsTheOrderOfValues(a: Fraction, b: Fraction)
    requires 0 < a.den <= U64_MAX && 0 < b.den <= U64_MAX && a.num <= U64_MAX && b.num <= U64_MAX
    ensures a.num * b.den <= U128_MAX && b.num * a.den <= U128_MAX
    ensures Cmp(a, b) == if Value(a) < Value(b) then Less else if Value(a) == Value(b) then Equal else Greater
  {
    SmallProduct(a.num, b.den);
    SmallProduct(b.num, a.den);
    CmpIsOrder(a, b);
  }

  lemma SmallProduct(a: nat, b: nat)
    requires a <= U64_MAX && b <= U64_MAX
    ensures a * b <= U128_MAX
  {
    assert (U64_MAX - a) * b >= 0;
    assert (U64_MAX - b) * U64_MAX >= 0;
    assert a * b <= U64_MAX * b;
  }

  lemma CrossMultiply(a: real, b: real, c: real, d: real)
    requires b > 0.0 && d > 0.0
    ensures a / b < c / d <==> a * d < c * b
    ensures a / b == c / d <==> a * d == c * b
  {
    var x, y := a / b, c / d;
    assert a == x * b && c == y * d;
    assert a * d == x * (b * d) && c * b == y * (b * d);
    assert b * d > 0.0;
  }
}
