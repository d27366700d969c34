/** Products and quotients of a flat index, for the layouts of this project. */
module Arith {

  lemma MulLe(a: int, b: int, m: int)
    requires a <= b && 0 <= m
    ensures a * m <= b * m
  {
    assert (b - a) * m >= 0;
  }

  lemma MulLtCancels(a: int, b: int, m: int)
    requires a * m < b * m && 0 <= m
    ensures a < b
  {
    if b <= a {
      MulLe(b, a, m);
    }
  }

  lemma Distribute(a: int, m: int)
    ensures (a + 1) * m == a * m + m
  {
  }

  /** a * m + b is index b of line a. */
  lemma DivModUnique(a: int, b: int, m: int)
    requires 0 <= b < m
    ensures (a * m + b) / m == a && (a * m + b) % m == b
  {
    var i := a * m + b;
    var q := i / m;
    assert i == q * m + i % m;
    Distribute(a, m);
    Distribute(q, m);
    MulLtCancels(q, a + 1, m);
    MulLtCancels(a, q + 1, m);
  }

  lemma Join(a: int, b: int, n: int, m: int)
    requires 0 <= a < n && 0 <= b < m
    ensures 0 <= a * m + b < n * m
    ensures (a * m + b) / m == a && (a * m + b) % m == b
  {
    DivModUnique(a, b, m);
    MulLe(0, a, m);
    MulLe(a + 1, n, m);
    Distribute(a, m);
  }

  /** The line and the place in it of a flat index. */
  lemma Split(i: int, n: nat, m: nat)
    requires 0 <= i < n * m
    ensures m > 0 && 0 <= i / m < n && 0 <= i % m < m && i == i / m * m + i % m
  {
    if m == 0 {
      assert false;
    }
    assert i == i / m * m + i % m;
    MulLtCancels(i / m, n, m);
  }
}
