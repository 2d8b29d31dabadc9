// Powers of two, and facts about division by a variable, proved by induction.
module Arithmetic {
  function Pow2(k: nat): (r: nat)
    ensures r > 0
  {
    if k == 0 then 1 else 2 * Pow2(k - 1)
  }

  lemma {:induction false} Far(m: int, d: int)
    requires m > 0 && d != 0
    ensures m * d >= m || m * d <= -m
    decreases if d > 0 then d else -d
  {
    if d > 1 {
      Far(m, d - 1);
      assert m * d == m * (d - 1) + m;
    } else if d < -1 {
      Far(m, d + 1);
      assert m * d == m * (d + 1) - m;
    }
  }

  // Division is determined by quotient and remainder.
  lemma DivMod(x: int, m: int, q: int, r: int)
    requires m > 0 && x == m * q + r && 0 <= r < m
    ensures x / m == q && x % m == r
  {
    var (d, k) := (x / m - q, x % m);
    assert x == m * (x / m) + k;
    assert m * d == m * (x / m) - m * q;
    assert m * d == r - k;
    if d != 0 { Far(m, d); }
  }
  lemma SameResidue(n: int, r: int, s: int, m: int)
    requires m > 0 && (n - r) % m == 0 && (n - s) % m == 0 && -m < r - s < m
    ensures r == s
  {
    var (a, b) := ((n - r) / m, (n - s) / m);
    assert n - r == m * a && n - s == m * b;
    assert m * (a - b) == m * a - m * b;
    if a != b { Far(m, a - b); }
  }

  // The quotient of a natural number.
  function Quot(x: nat, m: int): (q: nat)
    requires m > 0
  {
    QuotNonneg(x, m);
    x / m
  }

  lemma QuotNonneg(x: nat, m: int)
    requires m > 0
    ensures x / m >= 0
  {
    var q := x / m;
    assert x == m * q + x % m;
    if q < 0 { Negative(m, q); }
  }

  lemma Negative(m: int, d: int)
    requires m > 0 && d < 0
    ensures m * d <= -m
  {
    assert m * (-d) == -(m * d);
    Positive(m, -d);
  }

  lemma {:induction false} Positive(m: int, d: int)
    requires m > 0 && d > 0
    ensures m * d >= m
    decreases d
  {
    if d > 1 {
      Positive(m, d - 1);
      assert m * d == m * (d - 1) + m;
    }
  }
}
