/** Integer arithmetic the modules share. */
module IntArith {

  /** Quotient and remainder are unique. */
  lemma ModUnique(x: int, n: int, q: int, r: int)
    requires n > 0 && 0 <= r < n && x == n * q + r
    ensures x % n == r && x / n == q
  {
    var q', r' := x / n, x % n;
    assert n * (q - q') == r' - r;
    SmallMultiple(n, q - q');
  }

  lemma SmallMultiple(n: int, d: int)
    requires -n < n * d < n
    ensures d == 0
  {
  }

  lemma NonnegativeTimes(a: int, b: int)
    requires a >= 0 && b >= 0
    ensures a * b >= 0
  {
  }

  /** Row i of n rows of m lies within them. */
  lemma RowBound(i: int, n: int, m: int)
    requires 0 <= i < n && m >= 0
    ensures 0 <= i * m && i * m + m == (i + 1) * m <= n * m
  {
    NonnegativeTimes(i, m);
    NonnegativeTimes(n - 1 - i, m);
    SplitRows(i, n, m);
  }

  lemma SplitRows(i: int, n: int, m: int)
    ensures n * m == (i + 1) * m + (n - 1 - i) * m && (i + 1) * m == i * m + m
  {
  }

  function Pow2(k: nat): nat
    ensures Pow2(k) >= 1
  {
    if k == 0 then 1 else 2 * Pow2(k - 1)
  }

  /** A product kept under a name of its own. */
  function Times(a: int, b: int): (p: int)
    ensures a >= 0 && b >= 0 ==> p >= 0
  {
    a * b
  }
}
