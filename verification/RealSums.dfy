/** Finite sums of reals and signals that are zero before time 0. */
module RealSums {

  function Sum(n: nat, f: int -> real): real {
    if n == 0 then 0.0 else Sum(n - 1, f) + f(n - 1)
  }

  lemma {:induction false} SumExt(n: nat, f: int -> real, g: int -> real)
    requires forall i :: 0 <= i < n ==> f(i) == g(i)
    ensures Sum(n, f) == Sum(n, g)
  {
    if n != 0 {
      SumExt(n - 1, f, g);
    }
  }

  lemma {:induction false} SumZero(n: nat, f: int -> real)
    requires forall i :: 0 <= i < n ==> f(i) == 0.0
    ensures Sum(n, f) == 0.0
  {
    if n != 0 {
      SumZero(n - 1, f);
    }
  }

  lemma {:induction false} SumAdd(n: nat, f: int -> real, g: int -> real, h: int -> real)
    requires forall i :: 0 <= i < n ==> h(i) == f(i) + g(i)
    ensures Sum(n, h) == Sum(n, f) + Sum(n, g)
  {
    if n != 0 {
      SumAdd(n - 1, f, g, h);
    }
  }

  lemma {:induction false} SumSplit(n: nat, m: nat, f: int -> real, h: int -> real)
    requires forall i :: 0 <= i < m ==> h(i) == f(n + i)
    ensures Sum(n + m, f) == Sum(n, f) + Sum(m, h)
  {
    if m != 0 {
      SumSplit(n, m - 1, f, h);
      assert n + m - 1 == n + (m - 1);
    }
  }

  /** Exchanging the order of a double sum, given its rows and columns. */
  lemma {:induction false} SumSwap(n: nat, m: nat, f: (int, int) -> real, rows: int -> real, columns: int -> real)
    requires forall i :: 0 <= i < n ==> rows(i) == Sum(m, j => f(i, j))
    requires forall j :: 0 <= j < m ==> columns(j) == Sum(n, i => f(i, j))
    ensures Sum(n, rows) == Sum(m, columns)
  {
    if n == 0 {
      SumZero(m, columns);
    } else {
      var shorter := (j: int) => Sum(n - 1, i => f(i, j));
      SumSwap(n - 1, m, f, rows, shorter);
      var last := (j: int) => f(n - 1, j);
      forall j | 0 <= j < m
        ensures columns(j) == shorter(j) + last(j)
      {
        SumExt(n - 1, i => f(i, j), i => f(i, j));
      }
      SumAdd(m, shorter, last, columns);
      SumExt(m, j => f(n - 1, j), last);
    }
  }

  lemma {:induction false} SumNonnegative(n: nat, f: int -> real)
    requires forall i :: 0 <= i < n ==> f(i) >= 0.0
    ensures Sum(n, f) >= 0.0
  {
    if n != 0 {
      SumNonnegative(n - 1, f);
    }
  }

  /** A product kept under a name of its own. */
  function RealTimes(x: real, y: real): real {
    x * y
  }

  /** The value of a signal at any time, 0 outside it. */
  function At(x: seq<real>, i: int): real {
    if 0 <= i < |x| then x[i] else 0.0
  }
}
