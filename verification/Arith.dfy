/** Division and multiplication facts, each small enough for the solver. */
module Arith {

  lemma MulMonotone(m: int, x: int, y: int)
    requires 0 <= m
    ensures x < y ==> m * x <= m * (y - 1)
    ensures y <= x ==> m * y <= m * x
  {}

  /** Zero is the only multiple of m strictly between -m and m. */
  lemma OnlyZero(m: int, d: int)
    requires 0 <= m && -m < m * d < m
    ensures d == 0
  {
    MulMonotone(m, d, 1);
    MulMonotone(m, -1, d);
    MulMonotone(m, d, -1);
    MulMonotone(m, 1, d);
  }

  /** A quotient and a remainder are the only ones. */
  lemma DivUnique(n: nat, m: nat, q: nat, r: nat)
    requires n == m * q + r && r < m
    ensures n / m == q && n % m == r
  {
    var p, s := n / m, n % m;
    assert n == m * p + s;
    assert m * (p - q) == r - s;
    OnlyZero(m, p - q);
  }

  lemma AddMultiple(r: nat, m: nat, q: nat)
    requires 0 < m
    ensures (m * q + r) % m == r % m && (m * q + r) / m == q + r / m
  {
    assert m * q + r == m * (q + r / m) + r % m by {
      assert r == m * (r / m) + r % m;
      assert m * (q + r / m) == m * q + m * (r / m);
    }
    DivUnique(m * q + r, m, q + r / m, r % m);
  }

  lemma MultipleMod(q: nat, m: nat)
    requires 0 < m
    ensures (q * m) % m == 0 && (q * m) / m == q
  {
    assert q * m == m * q + 0;
    DivUnique(q * m, m, q, 0);
  }

  function Pow(base: nat, n: nat): (p: nat)
    requires base > 0
    ensures p > 0
  {
    if n == 0 then 1 else base * Pow(base, n - 1)
  }
}
