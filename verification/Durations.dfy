/** Exact conversion of durations to microseconds (lib/core/foundation/duration.hpp). */
module Durations {
  import opened Arithmetic
  import opened Clock
  import opened Record

  // ---- Greatest common divisors ----

  function Gcd(a: nat, b: nat): nat
    decreases b
  {
    if b == 0 then a else Gcd(b, a % b)
  }

  // g divides a and b, and is a combination of them.
  ghost predicate Bezout(a: int, b: int, g: int) {
    && (exists p, q :: a == Mul(p, g) && b == Mul(q, g))
    && exists x, y :: Mul(a, x) + Mul(b, y) == g
  }

  lemma ModParts(a: nat, b: nat)
    requires b > 0
    ensures 0 <= a % b < b && a == Mul(a / b, b) + a % b
  {}

  lemma {:induction false} GcdBezout(a: nat, b: nat)
    ensures Bezout(a, b, Gcd(a, b))
    decreases b
  {
    if b == 0 {
      assert a == Mul(1, a) && b == Mul(0, a);
      assert Mul(a, 1) + Mul(b, 0) == a;
    } else {
      ModParts(a, b);
      var m, r := a / b, a % b;
      GcdBezout(b, r);
      var g := Gcd(b, r);
      var p, q :| b == Mul(p, g) && r == Mul(q, g);
      var x, y :| Mul(b, x) + Mul(r, y) == g;
      Divides(a, b, m, r, p, q, g);
      Combines(a, b, m, r, x, y, g);
    }
  }

  lemma Divides(a: int, b: int, m: int, r: int, p: int, q: int, g: int)
    requires a == Mul(m, b) + r && b == Mul(p, g) && r == Mul(q, g)
    ensures a == Mul(m * p + q, g)
  {
    assert m * (p * g) == (m * p) * g;
  }

  lemma Combines(a: int, b: int, m: int, r: int, x: int, y: int, g: int)
    requires a == Mul(m, b) + r && Mul(b, x) + Mul(r, y) == g
    ensures Mul(a, y) + Mul(b, x - m * y) == g
  {
    assert a * y == (m * b) * y + r * y;
    assert b * (x - m * y) == b * x - b * (m * y);
    assert (m * b) * y == b * (m * y);
  }

  // ---- Coprime factors ----

  ghost predicate Coprime(a: int, b: int) { exists x, y :: Mul(a, x) + Mul(b, y) == 1 }

  // What is coprime to two numbers is coprime to their product.
  lemma CoprimeProduct(a: int, b: int, c: int)
    requires Coprime(a, b) && Coprime(a, c)
    ensures Coprime(a, b * c)
  {
    var x, y :| Mul(a, x) + Mul(b, y) == 1;
    var u, v :| Mul(a, u) + Mul(c, v) == 1;
    ProductCombination(a, b, c, x, y, u, v);
  }

  lemma ProductCombination(a: int, b: int, c: int, x: int, y: int, u: int, v: int)
    requires Mul(a, x) + Mul(b, y) == 1 && Mul(a, u) + Mul(c, v) == 1
    ensures Mul(a, x + (b * y) * u) + Mul(b * c, y * v) == 1
  {
    assert (b * y) * (a * u + c * v) == b * y;
    assert (b * y) * (a * u + c * v) == (b * y) * (a * u) + (b * y) * (c * v);
    assert (b * y) * (a * u) == a * ((b * y) * u);
    assert (b * y) * (c * v) == (b * c) * (y * v);
    assert a * (x + (b * y) * u) == a * x + a * ((b * y) * u);
  }

  /** A coprime divisor of a product divides the other factor. */
  lemma CoprimeDivides(d: int, m: int, n: int, q: int) returns (k: int)
    requires Coprime(d, m) && Mul(q, d) == Mul(n, m)
    ensures n == Mul(k, d)
  {
    var x, y :| Mul(d, x) + Mul(m, y) == 1;
    k := n * x + q * y;
    assert n * (d * x + m * y) == n;
    assert n * (d * x + m * y) == n * (d * x) + n * (m * y);
    assert n * (d * x) == (n * x) * d;
    assert n * (m * y) == (n * m) * y;
    assert (n * m) * y == (q * d) * y;
    assert (q * d) * y == (q * y) * d;
    assert (n * x + q * y) * d == (n * x) * d + (q * y) * d;
  }

  // ---- The conversion ----

  // count units of num / den seconds are exactly q microseconds.
  predicate Equals(q: int, count: int, num: nat, den: nat) {
    Mul(q, den) == Mul(Mul(count, num), MILLION)
  }

  ghost predicate Representable(count: int, num: nat, den: nat) {
    exists q: nat :: q <= LAST && Equals(q, count, num, den)
  }

  // The scale is num * multiplier / divisor, in lowest terms.
  ghost predicate Scale(num: nat, den: nat, common: int, divisor: int, multiplier: int) {
    && common > 0 && divisor > 0 && multiplier > 0
    && den == Mul(divisor, common) && MILLION == Mul(multiplier, common) && Coprime(divisor, num * multiplier)
  }

  lemma PositiveFactor(a: nat, b: int, g: nat)
    requires a > 0 && a == Mul(b, g)
    ensures b > 0 && g > 0
  {
    if b <= 0 { MulMonotone(b, 0, g); }
  }

  lemma ExactQuotient(a: nat, b: int, g: nat)
    requires a > 0 && a == Mul(b, g)
    ensures g > 0 && b > 0 && a / g == b
  {
    PositiveFactor(a, b, g);
    DivUnique(a, g, b);
  }

  lemma ScaleReduced(num: nat, den: nat)
    requires num > 0 && den > 0 && Gcd(den, num) == 1
    ensures var common := Gcd(den, MILLION);
            common > 0 && Scale(num, den, common, den / common, MILLION / common)
  {
    var common := Gcd(den, MILLION);
    GcdBezout(den, MILLION);
    GcdBezout(den, num);
    var p, q :| den == Mul(p, common) && MILLION == Mul(q, common);
    ExactQuotient(den, p, common);
    ExactQuotient(MILLION, q, common);
    var x, y :| Mul(den, x) + Mul(num, y) == 1;
    FactorCoprime(den, num, p, common, x, y);
    var u, v :| Mul(den, u) + Mul(MILLION, v) == common;
    QuotientCoprime(den, MILLION, p, q, common, u, v);
    CoprimeProduct(p, num, q);
  }

  lemma FactorCoprime(den: int, num: int, p: int, common: int, x: int, y: int)
    requires den == Mul(p, common) && Mul(den, x) + Mul(num, y) == 1
    ensures Coprime(p, num)
  {
    assert (p * common) * x == p * (common * x);
    assert Mul(p, common * x) + Mul(num, y) == 1;
  }

  lemma QuotientCoprime(a: int, b: int, p: int, q: int, g: nat, u: int, v: int)
    requires g > 0 && a == Mul(p, g) && b == Mul(q, g) && Mul(a, u) + Mul(b, v) == g
    ensures Coprime(p, q)
  {
    assert (p * g) * u == (p * u) * g && (q * g) * v == (q * v) * g;
    assert (p * u + q * v) * g == (p * u) * g + (q * v) * g;
    assert Mul(p * u + q * v - 1, g) == 0;
    OnlyZero(p * u + q * v - 1, g, 0);
    assert Mul(p, u) + Mul(q, v) == 1;
  }

  // In lowest terms the exact value is count / divisor * num * multiplier.
  lemma ScaledValue(k: int, num: nat, den: nat, common: int, divisor: int, multiplier: int)
    requires Scale(num, den, common, divisor, multiplier)
    ensures Equals((k * num) * multiplier, k * divisor, num, den)
  {
    var q := (k * num) * multiplier;
    assert q * (divisor * common) == (q * divisor) * common;
    assert q * divisor == ((k * divisor) * num) * multiplier;
    assert (((k * divisor) * num) * multiplier) * common == ((k * divisor) * num) * (multiplier * common);
  }

  lemma EqualsUnique(q: int, r: int, count: int, num: nat, den: nat)
    requires den > 0 && Equals(q, count, num, den) && Equals(r, count, num, den)
    ensures q == r
  {
    assert Mul(q - r, den) == 0;
    OnlyZero(q - r, den, 0);
  }

  // An exact value exists only if the divisor divides the count.
  lemma ExactDivides(q: int, count: int, num: nat, den: nat, common: int, divisor: int, multiplier: int)
    returns (k: int)
    requires Scale(num, den, common, divisor, multiplier) && Equals(q, count, num, den)
    ensures count == Mul(k, divisor) && q == (k * num) * multiplier
  {
    assert q * (divisor * common) == (q * divisor) * common;
    assert (count * num) * (multiplier * common) == (count * (num * multiplier)) * common;
    var difference := q * divisor - count * (num * multiplier);
    assert difference * common == (q * divisor) * common - (count * (num * multiplier)) * common;
    assert Mul(difference, common) == 0;
    OnlyZero(difference, common, 0);
    k := CoprimeDivides(divisor, num * multiplier, count, q);
    ScaledValue(k, num, den, common, divisor, multiplier);
    EqualsUnique(q, (k * num) * multiplier, count, num, den);
  }

  lemma FitsBelow(a: nat, b: nat, limit: nat)
    requires b > 0
    ensures a > limit / b <==> Mul(a, b) > limit
  {
    DivAtLeast(limit, b, a);
  }

  lemma DivisorCounts(count: nat, divisor: int)
    requires divisor > 0
    ensures count % divisor == 0 ==> count == Mul(count / divisor, divisor)
    ensures (exists k :: count == Mul(k, divisor)) ==> count % divisor == 0
  {
    ModParts(count, divisor);
    if k :| count == Mul(k, divisor) {
      if k < 0 {
        MulMonotone(k, -1, divisor);
      } else {
        MultipleMod(k, divisor);
      }
    }
  }

  /** The conversion succeeds exactly when the duration is not negative and is a
      whole number of microseconds below the reserved maximum; it then returns that
      number, and no intermediate value exceeds 64 bits. */
  method ToMicroseconds(count: int, num: nat, den: nat) returns (r: Option<nat>)
    requires num > 0 && den > 0 && Gcd(den, num) == 1
    ensures r.Some? <==> count >= 0 && Representable(count, num, den)
    ensures r.Some? ==> r.value <= LAST && Equals(r.value, count, num, den)
  {
    hide Scale, Equals, Gcd;
    if count < 0 {
      return None;
    }
    ScaleReduced(num, den);
    var common := Gcd(den, MILLION);
    var divisor, multiplier := den / common, MILLION / common;
    ScalePositive(num, den, common, divisor, multiplier);
    DivisorCounts(count, divisor);
    if count % divisor != 0 {
      NotWhole(count, num, den, common, divisor, multiplier);
      return None;
    }
    var units := count / divisor;
    DivBounds(count, divisor);
    FitsBelow(units, num, LAST);
    WholeValue(count, units, num, den, common, divisor, multiplier);
    if units > LAST / num {
      TooLarge(units * num, multiplier);
      return None;
    }
    var scaled := units * num;
    assert scaled <= LAST;
    FitsBelow(scaled, multiplier, LAST);
    if scaled > LAST / multiplier {
      return None;
    }
    assert scaled * multiplier <= LAST;
    r := Some(scaled * multiplier);
  }

  lemma ScalePositive(num: nat, den: nat, common: int, divisor: int, multiplier: int)
    requires Scale(num, den, common, divisor, multiplier)
    ensures common > 0 && divisor > 0 && multiplier > 0
  {}

  lemma NotWhole(count: nat, num: nat, den: nat, common: int, divisor: int, multiplier: int)
    requires Scale(num, den, common, divisor, multiplier) && count % divisor != 0
    ensures !Representable(count, num, den)
  {
    if q: nat :| q <= LAST && Equals(q, count, num, den) {
      var k := ExactDivides(q, count, num, den, common, divisor, multiplier);
      DivisorCounts(count, divisor);
    }
  }

  // For a whole number of units the value is determined.
  lemma WholeValue(count: nat, units: int, num: nat, den: nat, common: int, divisor: int, multiplier: int)
    requires Scale(num, den, common, divisor, multiplier) && count == Mul(units, divisor) && units >= 0 && den > 0
    ensures Equals((units * num) * multiplier, count, num, den)
    ensures Representable(count, num, den) <==> (units * num) * multiplier <= LAST
  {
    ScaledValue(units, num, den, common, divisor, multiplier);
    var v := (units * num) * multiplier;
    NaturalProduct(units, num, multiplier);
    if Representable(count, num, den) {
      var q: nat :| q <= LAST && Equals(q, count, num, den);
      EqualsUnique(q, v, count, num, den);
    }
  }

  lemma NaturalProduct(a: nat, b: nat, c: nat)
    ensures a * b >= 0 && (a * b) * c >= 0
  {
    MulMonotone(0, a, b);
    MulMonotone(0, a * b, c);
  }

  lemma TooLarge(a: int, multiplier: int)
    requires a > LAST && multiplier > 0
    ensures a * multiplier > LAST
  {
    MulMonotone(1, multiplier, a);
  }
}
