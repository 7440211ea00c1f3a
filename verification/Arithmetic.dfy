/** Products, quotients and remainders with a variable divisor. */
module Arithmetic {

  function Mul(q: int, k: int): int { q * k }

  lemma MulMonotone(a: int, b: int, k: nat)
    requires a <= b
    ensures a * k <= b * k
  {
    assert (b - a) * k >= 0;
    assert b * k == a * k + (b - a) * k;
  }

  lemma OnlyZero(a: int, k: nat, x: int)
    requires Mul(a, k) == x && 0 <= x < k
    ensures a == 0
  {
    if a > 0 {
      MulMonotone(1, a, k);
    } else if a < 0 {
      assert (-a) * k == -(a * k);
      MulMonotone(1, -a, k);
    }
  }

  lemma MultipleMod(q: nat, k: nat)
    requires k > 0
    ensures Mul(q, k) % k == 0
  {
    var p := Mul(q, k);
    var m, x := p / k, p % k;
    assert p == m * k + x;
    assert Mul(q - m, k) == x;
    OnlyZero(q - m, k, x);
  }

  // The quotient is the only number with x in its interval.
  lemma DivUnique(x: nat, k: nat, q: int)
    requires k > 0 && Mul(q, k) <= x < Mul(q, k) + k
    ensures x / k == q
  {
    var m, r := x / k, x % k;
    assert x == m * k + r;
    assert (m + 1) * k == m * k + k && (q + 1) * k == q * k + k;
    if m < q {
      MulMonotone(m + 1, q, k);
    } else if m > q {
      MulMonotone(q + 1, m, k);
    }
  }

  lemma DivBounds(x: nat, k: nat)
    requires k > 0
    ensures x / k >= 0 && Mul(x / k, k) <= x < Mul(x / k, k) + k
  {
    var m, r := x / k, x % k;
    assert x == m * k + r;
  }

  lemma DivLess(x: nat, k: nat)
    requires k > 0 && x >= k
    ensures (x - k) / k == x / k - 1
  {
    DivBounds(x, k);
    assert Mul(x / k - 1, k) == Mul(x / k, k) - k;
    DivUnique(x - k, k, x / k - 1);
  }

  // q lies below the quotient exactly when its multiple does not exceed x.
  lemma DivAtLeast(x: nat, k: nat, q: nat)
    requires k > 0
    ensures q <= x / k <==> Mul(q, k) <= x
  {
    DivBounds(x, k);
    if q <= x / k {
      MulMonotone(q, x / k, k);
    } else {
      MulMonotone(x / k + 1, q, k);
      assert (x / k + 1) * k == (x / k) * k + k;
    }
  }
}
