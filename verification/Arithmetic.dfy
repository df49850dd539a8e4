/** Products and remainders that the solver does not find alone. */
module Arithmetic {

  lemma Scale(a: int, b: int, p: int)
    requires p >= 0
    ensures a <= b ==> a * p <= b * p
  {
  }

  lemma ScaleAway(m: int, d: int)
    requires m >= 0
    ensures d >= 1 ==> m * d >= m
    ensures d <= -1 ==> m * d <= -m
  {
  }

  lemma RemainderUnique(m: int, q: int, r: int, x: int)
    requires 0 <= r < m && x == m * q + r
    ensures x % m == r && x / m == q
  {
    var d := x / m - q;
    assert m * d == r - x % m;
    ScaleAway(m, d);
  }

  lemma AddMultiple(m: int, k: int, x: int)
    requires m > 0 && x >= 0 && k >= 0 && k % m == 0
    ensures (x + k) % m == x % m
  {
    assert m * (x / m + k / m) == m * (x / m) + m * (k / m);
    RemainderUnique(m, x / m + k / m, x % m, x + k);
  }

  lemma AddPeriod(m: int, x: int)
    requires m > 0 && x >= 0
    ensures (x + m) % m == x % m && (x + m) / m == x / m + 1
  {
    RemainderUnique(m, x / m + 1, x % m, x + m);
  }

  /** Two numbers less than `m` apart have different remainders. */
  lemma Apart(m: nat, i: nat, d: nat)
    requires 0 < d < m
    ensures i % m != (i + d) % m
  {
    var q, r := i / m, i % m;
    if r + d < m {
      RemainderUnique(m, q, r + d, i + d);
    } else {
      assert i + d == m * (q + 1) + (r + d - m);
      RemainderUnique(m, q + 1, r + d - m, i + d);
    }
  }
}
