/** Exact complex arithmetic, the twiddle table of a transform and finite sums. */
module Complex {

  datatype Cpx = Cpx(r: real, i: real)

  const Zero := Cpx(0.0, 0.0)
  const One := Cpx(1.0, 0.0)

  function Add(a: Cpx, b: Cpx): Cpx {
    Cpx(a.r + b.r, a.i + b.i)
  }

  function Sub(a: Cpx, b: Cpx): Cpx {
    Cpx(a.r - b.r, a.i - b.i)
  }

  function Mul(a: Cpx, b: Cpx): Cpx {
    Cpx(a.r * b.r - a.i * b.i, a.r * b.i + a.i * b.r)
  }

  function Scale(a: Cpx, s: real): Cpx {
    Cpx(a.r * s, a.i * s)
  }

  function Conj(a: Cpx): Cpx {
    Cpx(a.r, -a.i)
  }

  lemma AddAssoc(a: Cpx, b: Cpx, c: Cpx)
    ensures Add(Add(a, b), c) == Add(a, Add(b, c))
  {
  }

  lemma MulAssoc(a: Cpx, b: Cpx, c: Cpx)
    ensures Mul(Mul(a, b), c) == Mul(a, Mul(b, c))
  {
  }

  lemma MulAdd(a: Cpx, b: Cpx, c: Cpx)
    ensures Mul(Add(a, b), c) == Add(Mul(a, c), Mul(b, c))
  {
  }

  lemma MulComm(a: Cpx, b: Cpx)
    ensures Mul(a, b) == Mul(b, a)
  {
  }

  lemma SquarePositive(x: real)
    ensures x * x >= 0.0
    ensures x != 0.0 ==> x * x > 0.0
  {
    if x > 0.0 {
    } else if x < 0.0 {
      assert (-x) * (-x) == x * x;
    }
  }

  lemma RealZeroProduct(x: real, y: real)
    requires x * y == 0.0
    ensures x == 0.0 || y == 0.0
  {
  }

  lemma Norm(a: Cpx, b: Cpx)
    requires Mul(a, b) == Zero
    ensures (a.r * a.r + a.i * a.i) * b.r == 0.0
    ensures (a.r * a.r + a.i * a.i) * b.i == 0.0
  {
    var x, y := a.r * b.r - a.i * b.i, a.r * b.i + a.i * b.r;
    calc {
      (a.r * a.r + a.i * a.i) * b.r;
      a.r * x + a.i * y;
      0.0;
    }
    calc {
      (a.r * a.r + a.i * a.i) * b.i;
      a.r * y - a.i * x;
      0.0;
    }
  }

  /** The complex numbers have no zero divisors. */
  lemma NoZeroDivisors(a: Cpx, b: Cpx)
    requires Mul(a, b) == Zero && a != Zero
    ensures b == Zero
  {
    var n := a.r * a.r + a.i * a.i;
    Norm(a, b);
    SquarePositive(a.r);
    SquarePositive(a.i);
    hide Mul;
    RealZeroProduct(n, b.r);
    RealZeroProduct(n, b.i);
  }

  // ------------------------------------------------------------------ sums

  function Sum(n: nat, f: int -> Cpx): Cpx {
    if n == 0 then Zero else Add(Sum(n - 1, f), f(n - 1))
  }

  lemma {:induction false} SumExt(n: nat, f: int -> Cpx, g: int -> Cpx)
    requires forall i :: 0 <= i < n ==> f(i) == g(i)
    ensures Sum(n, f) == Sum(n, g)
  {
    if n != 0 {
      SumExt(n - 1, f, g);
    }
  }

  lemma {:induction false} SumMul(n: nat, f: int -> Cpx, c: Cpx)
    ensures Mul(Sum(n, f), c) == Sum(n, i => Mul(f(i), c))
  {
    if n != 0 {
      SumMul(n - 1, f, c);
      MulAdd(Sum(n - 1, f), f(n - 1), c);
    }
  }

  lemma {:induction false} SumAdd(n: nat, f: int -> Cpx, g: int -> Cpx)
    ensures Sum(n, i => Add(f(i), g(i))) == Add(Sum(n, f), Sum(n, g))
  {
    if n != 0 {
      SumAdd(n - 1, f, g);
    }
  }

  lemma {:induction false} SumSplit(n: nat, m: nat, f: int -> Cpx)
    ensures Sum(n + m, f) == Add(Sum(n, f), Sum(m, i => f(n + i)))
  {
    if m != 0 {
      SumSplit(n, m - 1, f);
      AddAssoc(Sum(n, f), Sum(m - 1, i => f(n + i)), f(n + m - 1));
    }
  }

  /** The terms of a p by m regrouping that belong to residue q. */
  function Residue(p: int, m: nat, f: int -> Cpx, q: int): Cpx {
    Sum(m, i => f(p * i + q))
  }

  lemma ResidueStep(p: int, m: nat, f: int -> Cpx, q: int)
    ensures Residue(p, m + 1, f, q) == Add(Residue(p, m, f, q), f(p * m + q))
  {
    var g := (i: int) => f(p * i + q);
    SumExt(m + 1, g, i => f(p * i + q));
    SumExt(m, g, i => f(p * i + q));
  }

  /** Regrouping a sum of p*m terms by the index modulo p. */
  lemma {:induction false} SumDecimate(p: nat, m: nat, f: int -> Cpx)
    ensures Sum(p * m, f) == Sum(p, q => Residue(p, m, f, q))
  {
    hide Add, Residue;
    if m == 0 {
      ResidueZero(p, f);
    } else {
      var inner, outer := (q: int) => Residue(p, m - 1, f, q), (q: int) => Residue(p, m, f, q);
      var last := (i: int) => f(p * (m - 1) + i);
      SumDecimate(p, m - 1, f);
      BlockSum(p, m - 1, f);
      forall q | 0 <= q < p
        ensures Add(inner(q), last(q)) == outer(q)
      {
        ResidueStep(p, m - 1, f, q);
      }
      hide Sum;
      SumAdd(p, inner, last);
      SumExt(p, i => Add(inner(i), last(i)), outer);
      SumExt(p, q => Residue(p, m, f, q), outer);
      SumExt(p, q => Residue(p, m - 1, f, q), inner);
      SumExt(p, i => f(p * (m - 1) + i), last);
    }
  }

  lemma ResidueZero(p: nat, f: int -> Cpx)
    ensures Sum(p * 0, f) == Sum(p, q => Residue(p, 0, f, q))
  {
    SumZero(p, q => Residue(p, 0, f, q));
  }

  lemma BlockSum(p: nat, m: nat, f: int -> Cpx)
    ensures Sum(p * (m + 1), f) == Add(Sum(p * m, f), Sum(p, i => f(p * m + i)))
  {
    hide Add, Sum;
    assert p * (m + 1) == p * m + p;
    SumSplit(p * m, p, f);
  }

  lemma {:induction false} SumZero(n: nat, f: int -> Cpx)
    requires forall i :: 0 <= i < n ==> f(i) == Zero
    ensures Sum(n, f) == Zero
  {
    if n != 0 {
      SumZero(n - 1, f);
    }
  }

  /** Row sums and column sums of a table of m columns or n rows. */
  function Rows(m: nat, f: (int, int) -> Cpx): int -> Cpx {
    i => Sum(m, j => f(i, j))
  }

  function Columns(n: nat, f: (int, int) -> Cpx): int -> Cpx {
    j => Sum(n, i => f(i, j))
  }

  /** Exchanging the order of a double sum. */
  lemma {:induction false} SumSwap(n: nat, m: nat, f: (int, int) -> Cpx)
    ensures Sum(n, Rows(m, f)) == Sum(m, Columns(n, f))
  {
    if n == 0 {
      SumZero(m, Columns(n, f));
    } else {
      SumSwap(n - 1, m, f);
      var last := (j: int) => f(n - 1, j);
      SumAdd(m, Columns(n - 1, f), last);
      forall j | 0 <= j < m
        ensures Add(Columns(n - 1, f)(j), last(j)) == Columns(n, f)(j)
      {
        ColumnStep(n, f, j);
      }
      SumExt(m, i => Add(Columns(n - 1, f)(i), last(i)), Columns(n, f));
      SumExt(m, j => f(n - 1, j), last);
    }
  }

  lemma ColumnStep(n: nat, f: (int, int) -> Cpx, j: int)
    requires n > 0
    ensures Columns(n, f)(j) == Add(Columns(n - 1, f)(j), f(n - 1, j))
  {
    var g := (i: int) => f(i, j);
    SumExt(n, g, i => f(i, j));
    SumExt(n - 1, g, i => f(i, j));
  }

  /** A sum in which only the term at k survives. */
  lemma {:induction false} SumSingle(n: nat, k: nat, f: int -> Cpx)
    requires k < n
    requires forall i :: 0 <= i < n && i != k ==> f(i) == Zero
    ensures Sum(n, f) == f(k)
  {
    if k == n - 1 {
      SumZero(n - 1, f);
    } else {
      SumSingle(n - 1, k, f);
    }
  }
}
