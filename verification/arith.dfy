/** Facts about Euclidean division by a positive divisor, as used by the
    cyclic cursor, the signer schedule and the table layout. */
module Arith {

  /** Multiplying by a whole number of at least one moves away from zero. */
  lemma {:induction false} MulBound(d: int, n: int)
    requires n >= 1
    ensures d >= 1 ==> d * n >= n
    ensures d <= -1 ==> d * n <= -n
    decreases if d < 0 then -d else d
  {
    if d > 1 {
      MulBound(d - 1, n);
      assert d * n == (d - 1) * n + n;
    } else if d < -1 {
      MulBound(d + 1, n);
      assert d * n == (d + 1) * n - n;
    }
  }

  /** Multiplication by a positive number preserves and reflects order. */
  lemma MulMonotone(a: int, b: int, n: int)
    requires n >= 1
    ensures a <= b ==> a * n <= b * n
    ensures a * n < b * n ==> a < b
  {
    MulBound(b - a, n);
    assert (b - a) * n == b * n - a * n;
  }

  /** Quotient and remainder are the only pair that rebuilds `x`. */
  lemma DivModUnique(x: int, n: int, q: int, r: int)
    requires n >= 1 && 0 <= r < n && x == q * n + r
    ensures x / n == q && x % n == r
  {
    var q', r' := x / n, x % n;
    assert x == q' * n + r';
    assert (q - q') * n == r' - r;
    MulBound(q - q', n);
  }

  /** Reducing early does not change a sum modulo `n`. */
  lemma ModAdd(a: nat, b: nat, n: nat)
    requires n >= 1
    ensures (a % n + b) % n == (a + b) % n
  {
    var y := a % n + b;
    assert a == (a / n) * n + a % n;
    assert y == (y / n) * n + y % n;
    DivModUnique(a + b, n, a / n + y / n, y % n);
  }

  /** Adding a multiple of `n` does not change a residue modulo `n`. */
  lemma ModMultiple(x: nat, q: nat, n: nat)
    requires n >= 1
    ensures (x + q * n) % n == x % n
  {
    assert x == (x / n) * n + x % n;
    DivModUnique(x + q * n, n, x / n + q, x % n);
  }

  /** A number below the divisor is its own remainder. */
  lemma ModSmall(x: nat, n: nat)
    requires x < n
    ensures x % n == x && x / n == 0
  {
    DivModUnique(x, n, 0, x);
  }

  /** How quotient and remainder move when the dividend grows by one. */
  lemma DivModSucc(x: nat, n: nat)
    requires n >= 1
    ensures x % n + 1 < n ==> (x + 1) % n == x % n + 1 && (x + 1) / n == x / n
    ensures x % n + 1 == n ==> (x + 1) % n == 0 && (x + 1) / n == x / n + 1
  {
    assert x == (x / n) * n + x % n;
    if x % n + 1 < n {
      DivModUnique(x + 1, n, x / n, x % n + 1);
    } else {
      DivModUnique(x + 1, n, x / n + 1, 0);
    }
  }
}
