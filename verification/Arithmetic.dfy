/** Facts about flooring division. */
module Arithmetic {
  /** Adding k to a dividend carries over exactly when the remainder has less than k to go. */
  lemma Carry(n: int, k: nat, m: nat)
    requires 0 < m && k <= m
    ensures (n + k) / m == n / m + if n % m + k >= m then 1 else 0
  {
    var q, r := n / m, n % m;
    assert n == m * q + r;
    if r + k >= m {
      assert n + k == m * (q + 1) + (r + k - m);
      DivUnique(n + k, m, q + 1, r + k - m);
    } else {
      DivUnique(n + k, m, q, r + k);
    }
  }

  lemma DivUnique(n: int, m: nat, q: int, r: int)
    requires 0 < m && n == m * q + r && 0 <= r < m
    ensures n / m == q && n % m == r
  {
    var d := n / m - q;
    assert m * d == r - n % m;
    assert d > 0 ==> m * d >= m;
    assert d < 0 ==> m * d <= -(m as int);
  }

  lemma DivBounds(n: nat, d: nat, low: nat, high: nat)
    requires d > 0 && low * d <= n < (high + 1) * d
    ensures low <= n / d <= high
  {
    var q := n / d;
    assert n == q * d + n % d;
    if q < low {
      TimesMonotone(q + 1, low, d);
    }
    if q > high {
      TimesMonotone(high + 1, q, d);
    }
  }

  lemma TimesMonotone(x: nat, y: nat, d: nat)
    requires x <= y
    ensures x * d <= y * d
  {
  }
}
