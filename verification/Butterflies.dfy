/** The butterflies of kiss_fft.c, in place on one block of the array. */
module Butterflies {
  import opened IntArith
  import opened Complex
  import opened Twiddles
  import opened FftSpec

  /** S' is S with columns 0 .. u-1 of the block at o replaced by butterfly
      outputs; everything else is as it was. */
  ghost predicate ColumnsDone(tw: seq<Cpx>, t: int, p: nat, m: int, S: seq<Cpx>, S': seq<Cpx>, o: int, u: int)
    requires m > 0
  {
    && |S'| == |S|
    && forall x {:trigger S'[x]} :: 0 <= x < |S| ==>
         S'[x] == if o <= x < o + p * m && (x - o) % m < u then ButterflyAt(tw, t, p, m, S, o, x - o) else S[x]
  }

  /** The block at o holds butterfly outputs; everything else is as it was. */
  ghost predicate BlockDone(tw: seq<Cpx>, t: int, p: nat, m: int, S: seq<Cpx>, S': seq<Cpx>, o: int)
    requires m > 0
  {
    && |S'| == |S|
    && forall x {:trigger S'[x]} :: 0 <= x < |S| ==>
         S'[x] == if o <= x < o + p * m then ButterflyAt(tw, t, p, m, S, o, x - o) else S[x]
  }

  /** Blocks 0 .. i-1 of n positions hold stage outputs; the rest is as it was. */
  ghost predicate BlocksDone(tw: seq<Cpx>, t: int, p: nat, m: int, S: seq<Cpx>, S': seq<Cpx>, i: int)
    requires p > 0 && m > 0
  {
    && |S'| == |S|
    && forall x {:trigger S'[x]} :: 0 <= x < |S| ==>
         S'[x] == if x < i * (p * m) then StageAt(tw, t, p, m, S, x) else S[x]
  }

  lemma BlocksStart(tw: seq<Cpx>, t: int, p: nat, m: int, S: seq<Cpx>)
    requires p > 0 && m > 0
    ensures BlocksDone(tw, t, p, m, S, S, 0)
  {
    hide StageAt;
  }

  /** Finishing block i, which starts at o. */
  lemma BlockStep(tw: seq<Cpx>, t: int, p: nat, m: int, S: seq<Cpx>, S1: seq<Cpx>, S2: seq<Cpx>, o: int, i: int, blocks: int)
    requires p > 0 && m > 0 && 0 <= i < blocks && blocks * (p * m) <= |S| && o == i * (p * m)
    requires BlocksDone(tw, t, p, m, S, S1, i) && BlockDone(tw, t, p, m, S1, S2, o)
    ensures BlocksDone(tw, t, p, m, S, S2, i + 1)
  {
    hide StageAt, ButterflyAt;
    assert (i + 1) * (p * m) == o + p * m;
    forall x {:trigger S2[x]} | 0 <= x < |S|
      ensures S2[x] == if x < (i + 1) * (p * m) then StageAt(tw, t, p, m, S, x) else S[x]
    {
      if o <= x < o + p * m {
        BlockPoint(tw, t, p, m, S, S1, o, i, blocks, x);
      }
    }
  }

  lemma BlockPoint(tw: seq<Cpx>, t: int, p: nat, m: int, S: seq<Cpx>, S1: seq<Cpx>, o: int, i: int, blocks: int, x: int)
    requires p > 0 && m > 0 && 0 <= i < blocks && blocks * (p * m) <= |S| && o == i * (p * m)
    requires BlocksDone(tw, t, p, m, S, S1, i) && o <= x < o + p * m
    ensures ButterflyAt(tw, t, p, m, S1, o, x - o) == StageAt(tw, t, p, m, S, x)
  {
    hide StageAt, ButterflyAt;
    PairBound(i, x - o, blocks, p * m);
    assert (i + 1) * (p * m) == o + p * m;
    PairBound(i, p * m - 1, blocks, p * m);
    BlockIndex(tw, t, p, m, S, x, i, x - o);
    ButterflyCongruence(tw, t, p, m, S, S1, o, x - o);
  }

  /** A butterfly only reads its own block. */
  lemma ButterflyCongruence(tw: seq<Cpx>, t: int, p: nat, m: int, S: seq<Cpx>, S1: seq<Cpx>, o: int, k: int)
    requires m > 0 && 0 <= k < p * m
    requires forall y :: o <= y < o + p * m ==> At(S1, y) == At(S, y)
    ensures ButterflyAt(tw, t, p, m, S1, o, k) == ButterflyAt(tw, t, p, m, S, o, k)
  {
    hide Mul, W, Sum, At;
    var f := (q: int) => Mul(At(S1, o + k % m + q * m), W(tw, t * q * k));
    var g := (q: int) => Mul(At(S, o + k % m + q * m), W(tw, t * q * k));
    forall q | 0 <= q < p
      ensures f(q) == g(q)
    {
      PairBound(q, k % m, p, m);
    }
    SumExt(p, f, g);
    SumExt(p, f, q => Mul(At(S1, o + k % m + q * m), W(tw, t * q * k)));
    SumExt(p, g, q => Mul(At(S, o + k % m + q * m), W(tw, t * q * k)));
  }

  lemma BlockIndex(tw: seq<Cpx>, t: int, p: nat, m: int, S: seq<Cpx>, x: int, i: int, k: int)
    requires p > 0 && m > 0 && x / (p * m) == i && x % (p * m) == k
    ensures StageAt(tw, t, p, m, S, x) == ButterflyAt(tw, t, p, m, S, i * (p * m), k)
  {
    hide ButterflyAt;
  }

  /** All blocks finished: the array holds the next stage. */
  lemma BlocksAll(tw: seq<Cpx>, t: int, p: nat, m: int, S: seq<Cpx>, S': seq<Cpx>, blocks: int, n: nat)
    requires p > 0 && m > 0 && n == blocks * (p * m) && n <= |S|
    requires BlocksDone(tw, t, p, m, S, S', blocks)
    ensures S'[..n] == Stage(tw, t, p, m, S[..n]) && S'[n..] == S[n..]
  {
    hide StageAt;
    forall x | 0 <= x < n
      ensures S'[x] == StageAt(tw, t, p, m, S[..n], x)
    {
      StageLocal(tw, t, p, m, S, blocks, n, x);
    }
  }

  lemma StageLocal(tw: seq<Cpx>, t: int, p: nat, m: int, S: seq<Cpx>, blocks: int, n: nat, x: int)
    requires p > 0 && m > 0 && n == blocks * (p * m) && 0 <= x < n <= |S|
    ensures StageAt(tw, t, p, m, S, x) == StageAt(tw, t, p, m, S[..n], x)
  {
    hide StageAt, Mul, W, Sum;
    DivBound(x, blocks, p * m);
    var i, k := x / (p * m), x % (p * m);
    BlockIndex(tw, t, p, m, S, x, i, k);
    BlockIndex(tw, t, p, m, S[..n], x, i, k);
    ButterflyLocal(tw, t, p, m, S, blocks, n, i, k);
  }

  lemma ButterflyLocal(tw: seq<Cpx>, t: int, p: nat, m: int, S: seq<Cpx>, blocks: int, n: nat, i: int, k: int)
    requires p > 0 && m > 0 && n == blocks * (p * m) && n <= |S|
    requires 0 <= i < blocks && 0 <= k < p * m
    ensures ButterflyAt(tw, t, p, m, S, i * (p * m), k) == ButterflyAt(tw, t, p, m, S[..n], i * (p * m), k)
  {
    PairBound(i, p * m - 1, blocks, p * m);
    assert i * (p * m) >= 0;
    ButterflyCongruence(tw, t, p, m, S, S[..n], i * (p * m), k);
  }

  /** Column u of the block, already multiplied by its twiddles. */
  function Twiddled(tw: seq<Cpx>, t: int, m: int, S: seq<Cpx>, o: int, u: int, q: int): Cpx {
    Mul(At(S, o + u + q * m), W(tw, t * q * u))
  }

  /** Outputs u, m+u, 2m+u, ... are the p-point transform of column u. */
  lemma ColumnDft(tw: seq<Cpx>, inverse: bool, t: int, p: nat, m: int, step: int, S: seq<Cpx>, o: int, u: int, q1: int)
    requires ValidTable(tw, inverse) && 0 <= u < m && step == t * m
    ensures ButterflyAt(tw, t, p, m, S, o, q1 * m + u)
         == Sum(p, q => Mul(Twiddled(tw, t, m, S, o, u, q), W(tw, step * (q * q1))))
  {
    hide Mul, W, At, ValidTable, Sum;
    ModUnique(q1 * m + u, m, q1, u);
    var k := q1 * m + u;
    var lhs := (q: int) => Mul(At(S, o + k % m + q * m), W(tw, t * q * k));
    var rhs := (q: int) => Mul(Twiddled(tw, t, m, S, o, u, q), W(tw, step * (q * q1)));
    forall q | 0 <= q < p
      ensures lhs(q) == rhs(q)
    {
      var a, b := t * q * u, step * (q * q1);
      ExponentSplit(t, q, q1, m, u);
      WMul(tw, inverse, a, b);
      MulAssoc(At(S, o + u + q * m), W(tw, a), W(tw, b));
    }
    SumExt(p, lhs, rhs);
    SumExt(p, q => Mul(At(S, o + k % m + q * m), W(tw, t * q * k)), lhs);
    SumExt(p, q => Mul(Twiddled(tw, t, m, S, o, u, q), W(tw, step * (q * q1))), rhs);
  }

  lemma ExponentSplit(t: int, q: int, q1: int, m: int, u: int)
    ensures t * q * (q1 * m + u) == t * q * u + t * m * (q * q1)
  {
    calc {
      t * q * (q1 * m + u);
      t * q * (q1 * m) + t * q * u;
      { MulRearrange(t, q, m, q1); assert t * q * (m * q1) == t * q * (q1 * m); }
      (t * m) * (q * q1) + t * q * u;
    }
  }

  /** p steps of n/p come back to the start. */
  lemma RootShift(tw: seq<Cpx>, step: int, p: int, e: int, c: int, e': int)
    requires |tw| > 0 && step * p == |tw| && e' == e + p * c
    ensures W(tw, step * e') == W(tw, step * e)
  {
    hide W;
    assert step * e' == step * e + |tw| * c by {
      assert step * (p * c) == (step * p) * c;
      assert step * (e + p * c) == step * e + step * (p * c);
    }
    WShift(tw, step * e, c);
  }

  lemma RootConj(tw: seq<Cpx>, inverse: bool, step: int, p: int, e: int, e': int)
    requires ValidTable(tw, inverse) && step * p == |tw| && e' == p - e
    ensures W(tw, step * e') == Conj(W(tw, step * e))
  {
    assert |tw| > 0;
    hide W, ValidTable, Conj;
    RootShift(tw, step, p, -e, 1, e');
    assert step * (-e) == -(step * e);
    WConj(tw, inverse, step * e);
  }

  lemma MulOne(a: Cpx)
    ensures Mul(a, One) == a
  {
  }

  lemma RootZero(tw: seq<Cpx>, inverse: bool, step: int)
    requires ValidTable(tw, inverse)
    ensures W(tw, step * 0) == One
  {
    RootAtZero(tw, inverse);
    hide *;
    assert step * 0 == 0;
  }

  lemma RootAtZero(tw: seq<Cpx>, inverse: bool)
    requires ValidTable(tw, inverse)
    ensures W(tw, 0) == One
  {
  }

  /** A table entry the code reads directly. */
  lemma Entry(tw: seq<Cpx>, e: int)
    requires 0 <= e < |tw|
    ensures tw[e] == W(tw, e)
  {
    ModUnique(e, |tw|, 0, e);
  }

  /** Finishing column u. */
  lemma ColumnStep(tw: seq<Cpx>, t: int, p: nat, m: int, S: seq<Cpx>, S1: seq<Cpx>, S2: seq<Cpx>, o: int, u: int)
    requires 0 <= u < m
    requires ColumnsDone(tw, t, p, m, S, S1, o, u) && |S2| == |S|
    requires forall x {:trigger S2[x]} :: 0 <= x < |S| ==>
      S2[x] == if o <= x < o + p * m && (x - o) % m == u then ButterflyAt(tw, t, p, m, S, o, x - o) else S1[x]
    ensures ColumnsDone(tw, t, p, m, S, S2, o, u + 1)
  {
    hide ButterflyAt;
  }

  lemma ColumnsAll(tw: seq<Cpx>, t: int, p: nat, m: int, S: seq<Cpx>, S': seq<Cpx>, o: int)
    requires m > 0 && ColumnsDone(tw, t, p, m, S, S', o, m)
    ensures BlockDone(tw, t, p, m, S, S', o)
  {
    hide ButterflyAt;
  }

  lemma ColumnRead(tw: seq<Cpx>, t: int, p: nat, m: int, S: seq<Cpx>, S1: seq<Cpx>, o: int, u: int, q: int)
    requires 0 <= u < m && 0 <= q < p && 0 <= o && o + p * m <= |S|
    requires ColumnsDone(tw, t, p, m, S, S1, o, u)
    ensures 0 <= o + u + q * m < |S| && S1[o + u + q * m] == At(S, o + u + q * m)
  {
    hide ButterflyAt;
    PairBound(q, u, p, m);
  }

  /** The members of column u of a p-row block. */
  lemma ColumnMember(x: int, p: int, m: int, u: int)
    requires 0 <= u < m && 0 <= x < p * m && x % m == u
    ensures 0 <= x / m < p && x == (x / m) * m + u
  {
    DivBound(x, p, m);
  }

  lemma RowInColumn(q: int, p: int, m: int, u: int)
    requires 0 <= u < m && 0 <= q < p
    ensures 0 <= q * m + u < p * m && (q * m + u) % m == u
  {
    PairBound(q, u, p, m);
  }

  lemma TwiddledZero(tw: seq<Cpx>, inverse: bool, t: int, m: int, S: seq<Cpx>, o: int, u: int)
    requires ValidTable(tw, inverse)
    ensures Twiddled(tw, t, m, S, o, u, 0) == At(S, o + u)
  {
    hide At, Mul;
    assert t * 0 * u == 0;
    MulOne(At(S, o + u));
  }

  // -------------------------------------------------------------- radix 2

  lemma Sum2(f: int -> Cpx)
    ensures Sum(2, f) == Add(f(0), f(1))
  {
    assert Sum(1, f) == Add(Sum(0, f), f(0));
  }

  lemma TwoRows(tw: seq<Cpx>, inverse: bool, t: int, m: int, step: int, S: seq<Cpx>, o: int, u: int, q1: int)
    requires ValidTable(tw, inverse) && 0 <= u < m && step == t * m
    ensures ButterflyAt(tw, t, 2, m, S, o, q1 * m + u)
         == Add(At(S, o + u), Mul(Twiddled(tw, t, m, S, o, u, 1), W(tw, step * q1)))
  {
    hide ValidTable, ButterflyAt, At, W, Mul, Add, Twiddled;
    ColumnDft(tw, inverse, t, 2, m, step, S, o, u, q1);
    Sum2(q => Mul(Twiddled(tw, t, m, S, o, u, q), W(tw, step * (q * q1))));
    TwiddledZero(tw, inverse, t, m, S, o, u);
    RootZero(tw, inverse, step);
    MulOne(At(S, o + u));
  }

  lemma Radix2Algebra(b: Cpx, a: Cpx)
    ensures Add(a, Mul(b, One)) == Add(a, b)
    ensures Add(a, Mul(b, Cpx(-1.0, 0.0))) == Sub(a, b)
  {
  }

  lemma StepOf(t: int, p: int, m: int, n: int)
    requires t * p * m == n && p > 0
    ensures t * m * p == n && n % p == 0 && t * m == n / p
  {
    assert t * p * m == t * m * p;
    ModUnique(n, p, t * m, 0);
  }

  lemma Radix2(tw: seq<Cpx>, inverse: bool, t: int, m: int, step: int, S: seq<Cpx>, o: int, u: int)
    requires ValidTable(tw, inverse) && 0 <= u < m && step == t * m && step * 2 == |tw|
    ensures var a, b := At(S, o + u), Twiddled(tw, t, m, S, o, u, 1);
      && ButterflyAt(tw, t, 2, m, S, o, u) == Add(a, b)
      && ButterflyAt(tw, t, 2, m, S, o, m + u) == Sub(a, b)
  {
    hide ValidTable, ButterflyAt, At, W, Sum, Mul, Add, Sub, Twiddled;
    TwoRows(tw, inverse, t, m, step, S, o, u, 0);
    TwoRows(tw, inverse, t, m, step, S, o, u, 1);
    RootZero(tw, inverse, step);
    HalfTurn(tw, inverse);
    Radix2Algebra(Twiddled(tw, t, m, S, o, u, 1), At(S, o + u));
  }

  lemma Column2(tw: seq<Cpx>, t: int, m: int, S: seq<Cpx>, S1: seq<Cpx>, S2: seq<Cpx>, o: int, u: int)
    requires 0 <= u < m && 0 <= o && o + 2 * m <= |S|
    requires ColumnsDone(tw, t, 2, m, S, S1, o, u)
    requires S2 == S1[o + u := ButterflyAt(tw, t, 2, m, S, o, u)][o + u + m := ButterflyAt(tw, t, 2, m, S, o, m + u)]
    ensures ColumnsDone(tw, t, 2, m, S, S2, o, u + 1)
  {
    hide ButterflyAt;
    forall x {:trigger S2[x]} | 0 <= x < |S|
      ensures S2[x] == if o <= x < o + 2 * m && (x - o) % m == u then ButterflyAt(tw, t, 2, m, S, o, x - o) else S1[x]
    {
      if o <= x < o + 2 * m && (x - o) % m == u {
        ColumnMember(x - o, 2, m, u);
      } else {
        RowInColumn(0, 2, m, u);
        RowInColumn(1, 2, m, u);
      }
    }
    ColumnStep(tw, t, 2, m, S, S1, S2, o, u);
  }

  method Bfly2(Fout: array<Cpx>, fstride: nat, tw: seq<Cpx>, ghost inverse: bool, m: nat, N: nat, mm: nat)
    requires ValidTable(tw, inverse) && fstride > 0 && m > 0 && fstride * 2 * m == |tw|
    requires N == 1 || mm == 2 * m
    requires N * (2 * m) <= Fout.Length
    modifies Fout
    ensures BlocksDone(tw, fstride, 2, m, old(Fout[..]), Fout[..], N)
  {
    hide ButterflyAt, ValidTable, Mul, Add, Sub, At, ColumnsDone, W, BlockDone, StageAt, BlocksDone, Twiddled;
    ghost var S0 := Fout[..];
    BlocksStart(tw, fstride, 2, m, S0);
    StepOf(fstride, 2, m, |tw|);
    for i := 0 to N
      invariant BlocksDone(tw, fstride, 2, m, S0, Fout[..], i)
    {
      var o := i * mm;
      BlockStart(i, N, 2 * m, mm);
      ghost var S := Fout[..];
      var tw1 := 0;
      ColumnsStart(tw, fstride, 2, m, S, o);
      for j := 0 to m
        invariant tw1 == j * fstride
        invariant ColumnsDone(tw, fstride, 2, m, S, Fout[..], o, j)
      {
        ghost var S1 := Fout[..];
        Column2Entries(tw, fstride, m, S, S1, o, j);
        Radix2(tw, inverse, fstride, m, fstride * m, S, o, j);
        Bfly2Column(Fout, o + j, m, tw[tw1]);
        tw1 := tw1 + fstride;
        Column2(tw, fstride, m, S, S1, Fout[..], o, j);
      }
      ColumnsAll(tw, fstride, 2, m, S, Fout[..], o);
      BlockStep(tw, fstride, 2, m, S0, S, Fout[..], o, i, N);
    }
  }

  /** One pass of the radix-2 loop: the two values at x and x+m. */
  method Bfly2Column(Fout: array<Cpx>, x: nat, m: nat, w: Cpx)
    requires m > 0 && x + m < Fout.Length
    modifies Fout
    ensures var S := old(Fout[..]); var t := Mul(S[x + m], w);
      Fout[..] == S[x := Add(S[x], t)][x + m := Sub(S[x], t)]
  {
    hide Mul, Add, Sub;
    var t := Mul(Fout[x + m], w);
    Fout[x + m] := Sub(Fout[x], t);
    Fout[x] := Add(Fout[x], t);
  }

  /** What the code reads for column u of a radix-2 block. */
  lemma Column2Entries(tw: seq<Cpx>, t: int, m: int, S: seq<Cpx>, S1: seq<Cpx>, o: int, u: int)
    requires t > 0 && 0 <= u < m && t * 2 * m == |tw| && 0 <= o && o + 2 * m <= |S|
    requires ColumnsDone(tw, t, 2, m, S, S1, o, u)
    ensures |S1| == |S| && 0 <= u * t < |tw| && S1[o + u] == At(S, o + u)
    ensures Mul(S1[o + u + m], tw[u * t]) == Twiddled(tw, t, m, S, o, u, 1)
  {
    hide *;
    ColumnRead(tw, t, 2, m, S, S1, o, u, 0);
    ColumnEntry(tw, t, 2, m, S, S1, o, u, 1);
    assert u * t * 1 == u * t;
  }

  lemma BlockStart(i: int, blocks: int, len: int, mm: int)
    requires 0 <= i < blocks && len > 0 && (blocks == 1 || mm == len)
    ensures i * mm == i * len && 0 <= i * len && i * len + len <= blocks * len
  {
    RowBound(i, blocks, len);
    assert i == 0 ==> i * mm == 0 && i * len == 0;
  }

  lemma TwiddledEntry(tw: seq<Cpx>, t: int, m: int, S: seq<Cpx>, o: int, u: int, q: int, e: int)
    requires 0 <= e < |tw| && e == t * q * u
    requires 0 <= o + u + q * m < |S|
    ensures Twiddled(tw, t, m, S, o, u, q) == Mul(At(S, o + u + q * m), tw[e])
  {
    hide Mul, At;
    ModUnique(e, |tw|, 0, e);
  }

  lemma ColumnsStart(tw: seq<Cpx>, t: int, p: nat, m: int, S: seq<Cpx>, o: int)
    requires m > 0
    ensures ColumnsDone(tw, t, p, m, S, S, o, 0)
  {
    hide ButterflyAt;
  }

  lemma TwiddleIndex(t: int, p: int, m: int, j: int, q: int, n: int)
    requires t > 0 && 0 <= j < m && 0 <= q < p && t * p * m == n
    ensures 0 <= j * t * q < n && j * t * q == t * q * j
  {
    assert t * q * j <= t * q * m by { assert 0 <= t * q; }
    assert t * q * m <= t * p * m by { assert t * q <= t * p; }
    assert j * t * q == t * q * j;
    if q > 0 {
      assert t * q * j < t * q * m by { assert t * q > 0; }
    } else {
      assert t * p * m > 0 by { assert t * p > 0; }
    }
  }

  // -------------------------------------------------------------- radix 4

  lemma Sum4(f: int -> Cpx)
    ensures Sum(4, f) == Add(Add(Add(f(0), f(1)), f(2)), f(3))
  {
    assert Sum(1, f) == Add(Sum(0, f), f(0));
    assert Sum(2, f) == Add(Sum(1, f), f(1));
    assert Sum(3, f) == Add(Sum(2, f), f(2));
  }

  lemma FourRows(tw: seq<Cpx>, inverse: bool, t: int, m: int, step: int, S: seq<Cpx>, o: int, u: int, q1: int)
    requires ValidTable(tw, inverse) && 0 <= u < m && step == t * m
    ensures ButterflyAt(tw, t, 4, m, S, o, q1 * m + u)
         == Add(Add(Add(At(S, o + u),
              Mul(Twiddled(tw, t, m, S, o, u, 1), W(tw, step * q1))),
              Mul(Twiddled(tw, t, m, S, o, u, 2), W(tw, step * (2 * q1)))),
              Mul(Twiddled(tw, t, m, S, o, u, 3), W(tw, step * (3 * q1))))
  {
    hide ValidTable, ButterflyAt, At, W, Mul, Add, Twiddled;
    ColumnDft(tw, inverse, t, 4, m, step, S, o, u, q1);
    Sum4(q => Mul(Twiddled(tw, t, m, S, o, u, q), W(tw, step * (q * q1))));
    TwiddledZero(tw, inverse, t, m, S, o, u);
    RootZero(tw, inverse, step);
    MulOne(At(S, o + u));
  }

  /** The first powers of a quarter turn. */
  lemma FirstQuarters(tw: seq<Cpx>, inverse: bool, step: int)
    requires ValidTable(tw, inverse) && step * 4 == |tw|
    ensures var s := if inverse then 1.0 else -1.0;
      && W(tw, step * 1) == Cpx(0.0, s) && W(tw, step * 2) == Cpx(-1.0, 0.0) && W(tw, step * 3) == Cpx(0.0, -s)
  {
    hide *;
    QuarterAt(tw, inverse, step);
    HalfAt(tw, inverse, step);
    RootConj(tw, inverse, step, 4, 1, 3);
    ConjIs(0.0, if inverse then 1.0 else -1.0);
  }

  lemma QuarterAt(tw: seq<Cpx>, inverse: bool, step: int)
    requires ValidTable(tw, inverse) && step * 4 == |tw|
    ensures W(tw, step * 1) == Cpx(0.0, if inverse then 1.0 else -1.0)
  {
    hide *;
    QuarterTurn(tw, inverse);
  }

  lemma HalfAt(tw: seq<Cpx>, inverse: bool, step: int)
    requires ValidTable(tw, inverse) && step * 4 == |tw|
    ensures W(tw, step * 2) == Cpx(-1.0, 0.0)
  {
    hide *;
    HalfTurn(tw, inverse);
  }

  lemma ConjIs(r: real, i: real)
    ensures Conj(Cpx(r, i)) == Cpx(r, -i)
  {
  }

  /** Powers of a quarter turn. */
  lemma QuarterRoots(tw: seq<Cpx>, inverse: bool, step: int)
    requires ValidTable(tw, inverse) && step * 4 == |tw|
    ensures var s := if inverse then 1.0 else -1.0;
      && W(tw, step * 0) == One && W(tw, step * 1) == Cpx(0.0, s)
      && W(tw, step * 2) == Cpx(-1.0, 0.0) && W(tw, step * 3) == Cpx(0.0, -s)
      && W(tw, step * 4) == One && W(tw, step * 6) == Cpx(-1.0, 0.0) && W(tw, step * 9) == Cpx(0.0, s)
  {
    assert |tw| > 0;
    hide *;
    RootZero(tw, inverse, step);
    FirstQuarters(tw, inverse, step);
    RootShift(tw, step, 4, 0, 1, 4);
    RootShift(tw, step, 4, 2, 1, 6);
    RootShift(tw, step, 4, 1, 2, 9);
  }

  /** a + b1 w + b2 w^2 + b3 w^3 for w = s i, s being 1 or -1. */
  function Quarter(a: Cpx, b1: Cpx, b2: Cpx, b3: Cpx, s: real): Cpx {
    Cpx(a.r - b2.r - s * (b1.i - b3.i), a.i - b2.i + s * (b1.r - b3.r))
  }

  /** The sums and differences the radix-4 code forms, s being +1 backwards and
      -1 forwards. */
  lemma Radix4Algebra(a: Cpx, b1: Cpx, b2: Cpx, b3: Cpx, s: real)
    ensures Add(Add(Add(a, Mul(b1, One)), Mul(b2, One)), Mul(b3, One)) == Add(Add(a, b2), Add(b1, b3))
    ensures Add(Add(Add(a, Mul(b1, Cpx(-1.0, 0.0))), Mul(b2, One)), Mul(b3, Cpx(-1.0, 0.0))) == Sub(Add(a, b2), Add(b1, b3))
    ensures Add(Add(Add(a, Mul(b1, Cpx(0.0, s))), Mul(b2, Cpx(-1.0, 0.0))), Mul(b3, Cpx(0.0, -s)))
         == Quarter(a, b1, b2, b3, s)
    ensures Add(Add(Add(a, Mul(b1, Cpx(0.0, -s))), Mul(b2, Cpx(-1.0, 0.0))), Mul(b3, Cpx(0.0, s)))
         == Quarter(a, b1, b2, b3, -s)
  {
  }

  lemma Radix4(tw: seq<Cpx>, inverse: bool, t: int, m: int, step: int, S: seq<Cpx>, o: int, u: int)
    requires ValidTable(tw, inverse) && 0 <= u < m && step == t * m && step * 4 == |tw|
    ensures var a, b1 := At(S, o + u), Twiddled(tw, t, m, S, o, u, 1);
      var b2, b3 := Twiddled(tw, t, m, S, o, u, 2), Twiddled(tw, t, m, S, o, u, 3);
      var s := if inverse then 1.0 else -1.0;
      && ButterflyAt(tw, t, 4, m, S, o, u) == Add(Add(a, b2), Add(b1, b3))
      && ButterflyAt(tw, t, 4, m, S, o, m + u) == Quarter(a, b1, b2, b3, s)
      && ButterflyAt(tw, t, 4, m, S, o, 2 * m + u) == Sub(Add(a, b2), Add(b1, b3))
      && ButterflyAt(tw, t, 4, m, S, o, 3 * m + u) == Quarter(a, b1, b2, b3, -s)
  {
    hide ValidTable, ButterflyAt, At, W, Sum, Mul, Add, Sub, Twiddled, Quarter;
    FourRows(tw, inverse, t, m, step, S, o, u, 0);
    FourRows(tw, inverse, t, m, step, S, o, u, 1);
    FourRows(tw, inverse, t, m, step, S, o, u, 2);
    FourRows(tw, inverse, t, m, step, S, o, u, 3);
    QuarterRoots(tw, inverse, step);
    Radix4Algebra(At(S, o + u), Twiddled(tw, t, m, S, o, u, 1), Twiddled(tw, t, m, S, o, u, 2),
                  Twiddled(tw, t, m, S, o, u, 3), if inverse then 1.0 else -1.0);
  }

  /** Column u replaced by its butterfly outputs. */
  function Rows4(tw: seq<Cpx>, t: int, m: int, S: seq<Cpx>, S1: seq<Cpx>, o: int, u: int): (S2: seq<Cpx>)
    requires 0 <= u < m && 0 <= o && o + 4 * m <= |S1|
    ensures |S2| == |S1|
  {
    S1[o + u := ButterflyAt(tw, t, 4, m, S, o, u)]
      [o + u + m := ButterflyAt(tw, t, 4, m, S, o, m + u)]
      [o + u + 2 * m := ButterflyAt(tw, t, 4, m, S, o, 2 * m + u)]
      [o + u + 3 * m := ButterflyAt(tw, t, 4, m, S, o, 3 * m + u)]
  }

  lemma Column4(tw: seq<Cpx>, t: int, m: int, S: seq<Cpx>, S1: seq<Cpx>, S2: seq<Cpx>, o: int, u: int)
    requires 0 <= u < m && 0 <= o && o + 4 * m <= |S|
    requires ColumnsDone(tw, t, 4, m, S, S1, o, u)
    requires S2 == S1[o + u := ButterflyAt(tw, t, 4, m, S, o, u)]
                     [o + u + m := ButterflyAt(tw, t, 4, m, S, o, m + u)]
                     [o + u + 2 * m := ButterflyAt(tw, t, 4, m, S, o, 2 * m + u)]
                     [o + u + 3 * m := ButterflyAt(tw, t, 4, m, S, o, 3 * m + u)]
    ensures ColumnsDone(tw, t, 4, m, S, S2, o, u + 1)
  {
    Column4Set(tw, t, m, S, S1, o, u);
    hide ColumnsDone, ButterflyAt;
  }

  lemma Column4Set(tw: seq<Cpx>, t: int, m: int, S: seq<Cpx>, S1: seq<Cpx>, o: int, u: int)
    requires 0 <= u < m && 0 <= o && o + 4 * m <= |S| == |S1|
    requires ColumnsDone(tw, t, 4, m, S, S1, o, u)
    ensures ColumnsDone(tw, t, 4, m, S, Rows4(tw, t, m, S, S1, o, u), o, u + 1)
  {
    hide *;
    var S2 := Rows4(tw, t, m, S, S1, o, u);
    forall x {:trigger S2[x]} | 0 <= x < |S|
      ensures S2[x] == if o <= x < o + 4 * m && (x - o) % m == u then ButterflyAt(tw, t, 4, m, S, o, x - o) else S1[x]
    {
      Column4At(tw, t, m, S, S1, o, u, x);
    }
    ColumnStep(tw, t, 4, m, S, S1, S2, o, u);
  }

  lemma Column4At(tw: seq<Cpx>, t: int, m: int, S: seq<Cpx>, S1: seq<Cpx>, o: int, u: int, x: int)
    requires 0 <= u < m && 0 <= o && o + 4 * m <= |S| == |S1| && 0 <= x < |S|
    ensures Rows4(tw, t, m, S, S1, o, u)[x]
         == if o <= x < o + 4 * m && (x - o) % m == u then ButterflyAt(tw, t, 4, m, S, o, x - o) else S1[x]
  {
    hide ButterflyAt;
    if o <= x < o + 4 * m && (x - o) % m == u {
      ColumnMember(x - o, 4, m, u);
    } else {
      RowInColumn(0, 4, m, u);
      RowInColumn(1, 4, m, u);
      RowInColumn(2, 4, m, u);
      RowInColumn(3, 4, m, u);
    }
  }

  method Bfly4(Fout: array<Cpx>, fstride: nat, tw: seq<Cpx>, inverse: bool, m: nat, N: nat, mm: nat)
    requires ValidTable(tw, inverse) && fstride > 0 && m > 0 && fstride * 4 * m == |tw|
    requires N == 1 || mm == 4 * m
    requires N * (4 * m) <= Fout.Length
    modifies Fout
    ensures BlocksDone(tw, fstride, 4, m, old(Fout[..]), Fout[..], N)
  {
    hide ButterflyAt, ValidTable, BlockDone, StageAt, BlocksDone;
    ghost var S0 := Fout[..];
    BlocksStart(tw, fstride, 4, m, S0);
    for i := 0 to N
      invariant BlocksDone(tw, fstride, 4, m, S0, Fout[..], i)
    {
      var o := i * mm;
      BlockStart(i, N, 4 * m, mm);
      ghost var S := Fout[..];
      Bfly4Block(Fout, o, fstride, tw, inverse, m);
      BlockStep(tw, fstride, 4, m, S0, S, Fout[..], o, i, N);
    }
  }

  method Bfly4Block(Fout: array<Cpx>, o: nat, fstride: nat, tw: seq<Cpx>, inverse: bool, m: nat)
    requires ValidTable(tw, inverse) && fstride > 0 && m > 0 && fstride * 4 * m == |tw|
    requires o + 4 * m <= Fout.Length
    modifies Fout
    ensures BlockDone(tw, fstride, 4, m, old(Fout[..]), Fout[..], o)
  {
    hide ButterflyAt, ValidTable, Mul, At, ColumnsDone, W, BlockDone, Twiddled, Add, Sub, Quarter;
    StepOf(fstride, 4, m, |tw|);
    ghost var S := Fout[..];
    var tw1, tw2, tw3 := 0, 0, 0;
    ColumnsStart(tw, fstride, 4, m, S, o);
    for j := 0 to m
      invariant tw1 == j * fstride * 1 && tw2 == j * fstride * 2 && tw3 == j * fstride * 3
      invariant ColumnsDone(tw, fstride, 4, m, S, Fout[..], o, j)
    {
      ghost var S1 := Fout[..];
      Column4Entries(tw, fstride, m, S, S1, o, j);
      Radix4(tw, inverse, fstride, m, fstride * m, S, o, j);
      Bfly4Column(Fout, o + j, m, tw[tw1], tw[tw2], tw[tw3], inverse);
      tw1, tw2, tw3 := tw1 + fstride, tw2 + fstride * 2, tw3 + fstride * 3;
      Column4(tw, fstride, m, S, S1, Fout[..], o, j);
    }
    ColumnsAll(tw, fstride, 4, m, S, Fout[..], o);
  }

  /** One pass of the radix-4 loop: the four values at x, x+m, x+2m, x+3m. */
  method Bfly4Column(Fout: array<Cpx>, x: nat, m: nat, w1: Cpx, w2: Cpx, w3: Cpx, inverse: bool)
    requires m > 0 && x + 3 * m < Fout.Length
    modifies Fout
    ensures var S := old(Fout[..]);
      var a, b1, b2, b3 := S[x], Mul(S[x + m], w1), Mul(S[x + 2 * m], w2), Mul(S[x + 3 * m], w3);
      var s := if inverse then 1.0 else -1.0;
      Fout[..] == S[x := Add(Add(a, b2), Add(b1, b3))]
                   [x + m := Quarter(a, b1, b2, b3, s)]
                   [x + 2 * m := Sub(Add(a, b2), Add(b1, b3))]
                   [x + 3 * m := Quarter(a, b1, b2, b3, -s)]
  {
    hide Mul;
    var m2, m3 := 2 * m, 3 * m;
    var s0, s1, s2 := Mul(Fout[x + m], w1), Mul(Fout[x + m2], w2), Mul(Fout[x + m3], w3);
    var s5 := Sub(Fout[x], s1);
    Fout[x] := Add(Fout[x], s1);
    var s3, s4 := Add(s0, s2), Sub(s0, s2);
    Fout[x + m2] := Sub(Fout[x], s3);
    Fout[x] := Add(Fout[x], s3);
    if inverse {
      Fout[x + m] := Cpx(s5.r - s4.i, s5.i + s4.r);
      Fout[x + m3] := Cpx(s5.r + s4.i, s5.i - s4.r);
    } else {
      Fout[x + m] := Cpx(s5.r + s4.i, s5.i - s4.r);
      Fout[x + m3] := Cpx(s5.r - s4.i, s5.i + s4.r);
    }
  }

  /** What the code reads for column u of a radix-4 block. */
  lemma Column4Entries(tw: seq<Cpx>, t: int, m: int, S: seq<Cpx>, S1: seq<Cpx>, o: int, u: int)
    requires t > 0 && 0 <= u < m && t * 4 * m == |tw| && 0 <= o && o + 4 * m <= |S|
    requires ColumnsDone(tw, t, 4, m, S, S1, o, u)
    ensures |S1| == |S| && 0 <= u * t * 1 < |tw| && 0 <= u * t * 2 < |tw| && 0 <= u * t * 3 < |tw|
    ensures S1[o + u] == At(S, o + u)
    ensures Mul(S1[o + u + m], tw[u * t * 1]) == Twiddled(tw, t, m, S, o, u, 1)
    ensures Mul(S1[o + u + 2 * m], tw[u * t * 2]) == Twiddled(tw, t, m, S, o, u, 2)
    ensures Mul(S1[o + u + 3 * m], tw[u * t * 3]) == Twiddled(tw, t, m, S, o, u, 3)
  {
    hide *;
    ColumnRead(tw, t, 4, m, S, S1, o, u, 0);
    ColumnEntry(tw, t, 4, m, S, S1, o, u, 1);
    ColumnEntry(tw, t, 4, m, S, S1, o, u, 2);
    ColumnEntry(tw, t, 4, m, S, S1, o, u, 3);
  }

  lemma ColumnEntry(tw: seq<Cpx>, t: int, p: nat, m: int, S: seq<Cpx>, S1: seq<Cpx>, o: int, u: int, q: int)
    requires t > 0 && 0 <= u < m && 0 <= q < p && t * p * m == |tw| && 0 <= o && o + p * m <= |S|
    requires ColumnsDone(tw, t, p, m, S, S1, o, u)
    ensures |S1| == |S| && 0 <= u * t * q < |tw| && 0 <= o + u + q * m < |S|
    ensures Mul(S1[o + u + q * m], tw[u * t * q]) == Twiddled(tw, t, m, S, o, u, q)
  {
    hide Mul, At, Twiddled;
    ColumnRead(tw, t, p, m, S, S1, o, u, q);
    TwiddleIndex(t, p, m, u, q, |tw|);
    TwiddledEntry(tw, t, m, S, o, u, q, u * t * q);
  }

  // -------------------------------------------------------------- radix 3

  lemma Sum3(f: int -> Cpx)
    ensures Sum(3, f) == Add(Add(f(0), f(1)), f(2))
  {
    assert Sum(1, f) == Add(Sum(0, f), f(0));
    assert Sum(2, f) == Add(Sum(1, f), f(1));
  }

  lemma ThreeRows(tw: seq<Cpx>, inverse: bool, t: int, m: int, step: int, S: seq<Cpx>, o: int, u: int, q1: int)
    requires ValidTable(tw, inverse) && 0 <= u < m && step == t * m
    ensures ButterflyAt(tw, t, 3, m, S, o, q1 * m + u)
         == Add(Add(At(S, o + u),
              Mul(Twiddled(tw, t, m, S, o, u, 1), W(tw, step * q1))),
              Mul(Twiddled(tw, t, m, S, o, u, 2), W(tw, step * (2 * q1))))
  {
    hide ValidTable, ButterflyAt, At, W, Mul, Add, Twiddled;
    ColumnDft(tw, inverse, t, 3, m, step, S, o, u, q1);
    Sum3(q => Mul(Twiddled(tw, t, m, S, o, u, q), W(tw, step * (q * q1))));
    TwiddledZero(tw, inverse, t, m, S, o, u);
    RootZero(tw, inverse, step);
    MulOne(At(S, o + u));
  }

  /** Powers of a third of a turn. */
  lemma ThirdRoots(tw: seq<Cpx>, inverse: bool, step: int)
    requires ValidTable(tw, inverse) && step * 3 == |tw|
    ensures var w := W(tw, step * 1);
      && W(tw, step * 0) == One && w == Cpx(-0.5, w.i)
      && W(tw, step * 2) == Cpx(-0.5, -w.i) && W(tw, step * 4) == w
  {
    assert |tw| > 0;
    hide ValidTable, W, Mul;
    RootZero(tw, inverse, step);
    ThirdTurn(tw, inverse);
    RootConj(tw, inverse, step, 3, 1, 2);
    RootShift(tw, step, 3, 1, 1, 4);
  }

  /** a + b1 w + b2 w^2 for w = -1/2 + e i and w^2 its conjugate. */
  function Third(a: Cpx, b1: Cpx, b2: Cpx, e: real): Cpx {
    Cpx(a.r - (b1.r + b2.r) * 0.5 - (b1.i - b2.i) * e, a.i - (b1.i + b2.i) * 0.5 + (b1.r - b2.r) * e)
  }

  /** The order of operations in the radix-3 code. */
  lemma ThirdStep(a: Cpx, b1: Cpx, b2: Cpx, e: real)
    ensures var (c, d) := (Sub(a, Scale(Add(b1, b2), 0.5)), Scale(Sub(b1, b2), e));
      && Third(a, b1, b2, e) == Cpx(c.r - d.i, c.i + d.r)
      && Third(a, b1, b2, -e) == Cpx(c.r + d.i, c.i - d.r)
  {
    NegateFactor(b1.i - b2.i, e);
    NegateFactor(b1.r - b2.r, e);
  }

  lemma NegateFactor(x: real, e: real)
    ensures x * (-e) == -(x * e)
  {
  }

  lemma Radix3Algebra(a: Cpx, b1: Cpx, b2: Cpx, e: real)
    ensures Add(Add(a, Mul(b1, One)), Mul(b2, One)) == Add(a, Add(b1, b2))
    ensures Add(Add(a, Mul(b1, Cpx(-0.5, e))), Mul(b2, Cpx(-0.5, -e)))
         == Third(a, b1, b2, e)
    ensures Add(Add(a, Mul(b1, Cpx(-0.5, -e))), Mul(b2, Cpx(-0.5, e)))
         == Third(a, b1, b2, -e)
  {
    PairAlgebra(b1, b2, Cpx(-0.5, e));
    PairAlgebra(b1, b2, Cpx(-0.5, -e));
    MulOne(b1);
    MulOne(b2);
    hide Mul;
    AddAssoc(a, b1, b2);
    AddAssoc(a, Mul(b1, Cpx(-0.5, e)), Mul(b2, Cpx(-0.5, -e)));
    AddAssoc(a, Mul(b1, Cpx(-0.5, -e)), Mul(b2, Cpx(-0.5, e)));
  }

  lemma Radix3(tw: seq<Cpx>, inverse: bool, t: int, m: int, step: int, S: seq<Cpx>, o: int, u: int)
    requires ValidTable(tw, inverse) && 0 <= u < m && step == t * m && step * 3 == |tw|
    ensures var a, e := At(S, o + u), W(tw, step * 1).i;
      var b1, b2 := Twiddled(tw, t, m, S, o, u, 1), Twiddled(tw, t, m, S, o, u, 2);
      && ButterflyAt(tw, t, 3, m, S, o, u) == Add(a, Add(b1, b2))
      && ButterflyAt(tw, t, 3, m, S, o, m + u)
         == Third(a, b1, b2, e)
      && ButterflyAt(tw, t, 3, m, S, o, 2 * m + u)
         == Third(a, b1, b2, -e)
  {
    hide ValidTable, ButterflyAt, At, W, Sum, Mul, Add, Sub, Twiddled, Third;
    ThreeRows(tw, inverse, t, m, step, S, o, u, 0);
    ThreeRows(tw, inverse, t, m, step, S, o, u, 1);
    ThreeRows(tw, inverse, t, m, step, S, o, u, 2);
    ThirdRoots(tw, inverse, step);
    Radix3Algebra(At(S, o + u), Twiddled(tw, t, m, S, o, u, 1), Twiddled(tw, t, m, S, o, u, 2), W(tw, step * 1).i);
  }

  lemma Column3(tw: seq<Cpx>, t: int, m: int, S: seq<Cpx>, S1: seq<Cpx>, S2: seq<Cpx>, o: int, u: int)
    requires 0 <= u < m && 0 <= o && o + 3 * m <= |S|
    requires ColumnsDone(tw, t, 3, m, S, S1, o, u)
    requires S2 == S1[o + u := ButterflyAt(tw, t, 3, m, S, o, u)]
                     [o + u + m := ButterflyAt(tw, t, 3, m, S, o, m + u)]
                     [o + u + 2 * m := ButterflyAt(tw, t, 3, m, S, o, 2 * m + u)]
    ensures ColumnsDone(tw, t, 3, m, S, S2, o, u + 1)
  {
    hide ButterflyAt;
    forall x {:trigger S2[x]} | 0 <= x < |S|
      ensures S2[x] == if o <= x < o + 3 * m && (x - o) % m == u then ButterflyAt(tw, t, 3, m, S, o, x - o) else S1[x]
    {
      if o <= x < o + 3 * m && (x - o) % m == u {
        ColumnMember(x - o, 3, m, u);
      } else {
        RowInColumn(0, 3, m, u);
        RowInColumn(1, 3, m, u);
        RowInColumn(2, 3, m, u);
      }
    }
    ColumnStep(tw, t, 3, m, S, S1, S2, o, u);
  }

  method Bfly3(Fout: array<Cpx>, o: nat, fstride: nat, tw: seq<Cpx>, ghost inverse: bool, m: nat)
    requires ValidTable(tw, inverse) && fstride > 0 && m > 0 && fstride * 3 * m == |tw|
    requires o + 3 * m <= Fout.Length
    modifies Fout
    ensures BlockDone(tw, fstride, 3, m, old(Fout[..]), Fout[..], o)
  {
    hide ButterflyAt, ValidTable, Mul, At, ColumnsDone, W, BlockDone, Twiddled, Add, Third;
    StepOf(fstride, 3, m, |tw|);
    ghost var S := Fout[..];
    assert 0 < fstride * m < |tw|;
    var epi3 := tw[fstride * m];
    Entry(tw, fstride * m * 1);
    var k, tw1, tw2 := m, 0, 0;
    ColumnsStart(tw, fstride, 3, m, S, o);
    while k != 0
      invariant 0 <= k <= m
      invariant tw1 == (m - k) * fstride * 1 && tw2 == (m - k) * fstride * 2
      invariant ColumnsDone(tw, fstride, 3, m, S, Fout[..], o, m - k)
    {
      ghost var S1 := Fout[..];
      ghost var u := m - k;
      Column3Entries(tw, fstride, m, S, S1, o, u);
      Radix3(tw, inverse, fstride, m, fstride * m, S, o, u);
      Bfly3Column(Fout, o + (m - k), m, tw[tw1], tw[tw2], epi3);
      tw1, tw2 := tw1 + fstride, tw2 + fstride * 2;
      Column3(tw, fstride, m, S, S1, Fout[..], o, u);
      k := k - 1;
    }
    ColumnsAll(tw, fstride, 3, m, S, Fout[..], o);
  }

  /** One pass of the radix-3 loop: the three values at x, x+m, x+2m. */
  method Bfly3Column(Fout: array<Cpx>, x: nat, m: nat, w1: Cpx, w2: Cpx, epi3: Cpx)
    requires m > 0 && x + 2 * m < Fout.Length
    modifies Fout
    ensures var S := old(Fout[..]);
      var a, b1, b2, e := S[x], Mul(S[x + m], w1), Mul(S[x + 2 * m], w2), epi3.i;
      Fout[..] == S[x := Add(a, Add(b1, b2))]
        [x + m := Third(a, b1, b2, e)]
        [x + 2 * m := Third(a, b1, b2, -e)]
  {
    hide Mul, Third;
    var m2 := 2 * m;
    ghost var a := Fout[x];
    var s1, s2 := Mul(Fout[x + m], w1), Mul(Fout[x + m2], w2);
    var s3, s0 := Add(s1, s2), Sub(s1, s2);
    Fout[x + m] := Cpx(Fout[x].r - s3.r * 0.5, Fout[x].i - s3.i * 0.5);
    s0 := Scale(s0, epi3.i);
    Fout[x] := Add(Fout[x], s3);
    Fout[x + m2] := Cpx(Fout[x + m].r + s0.i, Fout[x + m].i - s0.r);
    Fout[x + m] := Cpx(Fout[x + m].r - s0.i, Fout[x + m].i + s0.r);
    ThirdStep(a, s1, s2, epi3.i);
  }

  /** What the code reads for column u of a radix-3 block. */
  lemma Column3Entries(tw: seq<Cpx>, t: int, m: int, S: seq<Cpx>, S1: seq<Cpx>, o: int, u: int)
    requires t > 0 && 0 <= u < m && t * 3 * m == |tw| && 0 <= o && o + 3 * m <= |S|
    requires ColumnsDone(tw, t, 3, m, S, S1, o, u)
    ensures |S1| == |S| && 0 <= u * t * 1 < |tw| && 0 <= u * t * 2 < |tw|
    ensures S1[o + u] == At(S, o + u)
    ensures Mul(S1[o + u + m], tw[u * t * 1]) == Twiddled(tw, t, m, S, o, u, 1)
    ensures Mul(S1[o + u + 2 * m], tw[u * t * 2]) == Twiddled(tw, t, m, S, o, u, 2)
  {
    hide *;
    ColumnRead(tw, t, 3, m, S, S1, o, u, 0);
    ColumnEntry(tw, t, 3, m, S, S1, o, u, 1);
    ColumnEntry(tw, t, 3, m, S, S1, o, u, 2);
  }

  // -------------------------------------------------------------- radix 5

  lemma Sum5(f: int -> Cpx)
    ensures Sum(5, f) == Add(Add(Add(Add(f(0), f(1)), f(2)), f(3)), f(4))
  {
    Sum4(f);
    assert Sum(5, f) == Add(Sum(4, f), f(4));
  }

  lemma FiveRows(tw: seq<Cpx>, inverse: bool, t: int, m: int, step: int, S: seq<Cpx>, o: int, u: int, q1: int)
    requires ValidTable(tw, inverse) && 0 <= u < m && step == t * m
    ensures ButterflyAt(tw, t, 5, m, S, o, q1 * m + u)
         == Add(Add(Add(Add(At(S, o + u),
              Mul(Twiddled(tw, t, m, S, o, u, 1), W(tw, step * q1))),
              Mul(Twiddled(tw, t, m, S, o, u, 2), W(tw, step * (2 * q1)))),
              Mul(Twiddled(tw, t, m, S, o, u, 3), W(tw, step * (3 * q1)))),
              Mul(Twiddled(tw, t, m, S, o, u, 4), W(tw, step * (4 * q1))))
  {
    hide ValidTable, ButterflyAt, At, W, Mul, Add, Twiddled;
    ColumnDft(tw, inverse, t, 5, m, step, S, o, u, q1);
    Sum5(q => Mul(Twiddled(tw, t, m, S, o, u, q), W(tw, step * (q * q1))));
    TwiddledZero(tw, inverse, t, m, S, o, u);
    RootZero(tw, inverse, step);
    MulOne(At(S, o + u));
  }

  /** Powers of a fifth of a turn. */
  lemma FifthRoots(tw: seq<Cpx>, inverse: bool, step: int)
    requires ValidTable(tw, inverse) && step * 5 == |tw|
    ensures var ya, yb := W(tw, step * 1), W(tw, step * 2);
      && W(tw, step * 0) == One && W(tw, step * 3) == Conj(yb) && W(tw, step * 4) == Conj(ya)
      && W(tw, step * 6) == ya && W(tw, step * 8) == Conj(yb) && W(tw, step * 9) == Conj(ya)
      && W(tw, step * 12) == yb && W(tw, step * 16) == ya
  {
    assert |tw| > 0;
    hide ValidTable, W, Mul, Conj;
    RootZero(tw, inverse, step);
    RootConj(tw, inverse, step, 5, 2, 3);
    RootConj(tw, inverse, step, 5, 1, 4);
    RootShift(tw, step, 5, 1, 1, 6);
    RootShift(tw, step, 5, 3, 1, 8);
    RootShift(tw, step, 5, 4, 1, 9);
    RootShift(tw, step, 5, 2, 2, 12);
    RootShift(tw, step, 5, 1, 3, 16);
  }

  /** a + b1 y1 + b2 y2 + b3 conj(y2) + b4 conj(y1), for y1 and y2 on the unit
      circle, in the grouping of the radix-5 code. */
  function Fifth(a: Cpx, b1: Cpx, b2: Cpx, b3: Cpx, b4: Cpx, y1: Cpx, y2: Cpx): Cpx {
    var (s7, s8, s9, s10) := (Add(b1, b4), Add(b2, b3), Sub(b2, b3), Sub(b1, b4));
    Cpx(a.r + s7.r * y1.r + s8.r * y2.r - s10.i * y1.i - s9.i * y2.i,
        a.i + s7.i * y1.r + s8.i * y2.r + s10.r * y1.i + s9.r * y2.i)
  }

  lemma FifthOnes(a: Cpx, b1: Cpx, b2: Cpx, b3: Cpx, b4: Cpx)
    ensures Add(Add(Add(Add(a, Mul(b1, One)), Mul(b2, One)), Mul(b3, One)), Mul(b4, One))
         == Add(a, Add(Add(b1, b4), Add(b2, b3)))
  {
  }

  lemma Radix5Algebra(a: Cpx, b1: Cpx, b2: Cpx, b3: Cpx, b4: Cpx, y1: Cpx, y2: Cpx)
    ensures Add(Add(Add(Add(a, Mul(b1, y1)), Mul(b2, y2)), Mul(b3, Conj(y2))), Mul(b4, Conj(y1)))
         == Fifth(a, b1, b2, b3, b4, y1, y2)
  {
    PairAlgebra(b1, b4, y1);
    PairAlgebra(b2, b3, y2);
    hide Mul;
    AddPairs(a, Mul(b1, y1), Mul(b2, y2), Mul(b3, Conj(y2)), Mul(b4, Conj(y1)));
  }

  /** b y + b' conj(y) */
  lemma PairAlgebra(b: Cpx, b': Cpx, y: Cpx)
    ensures Add(Mul(b, y), Mul(b', Conj(y)))
         == Cpx((b.r + b'.r) * y.r - (b.i - b'.i) * y.i, (b.i + b'.i) * y.r + (b.r - b'.r) * y.i)
  {
  }

  lemma AddPairs(a: Cpx, c1: Cpx, c2: Cpx, c3: Cpx, c4: Cpx)
    ensures Add(Add(Add(Add(a, c1), c2), c3), c4) == Add(Add(a, Add(c1, c4)), Add(c2, c3))
  {
  }

  lemma ConjTwice(a: Cpx)
    ensures Conj(Conj(a)) == a
  {
  }

  lemma Radix5(tw: seq<Cpx>, inverse: bool, t: int, m: int, step: int, S: seq<Cpx>, o: int, u: int)
    requires ValidTable(tw, inverse) && 0 <= u < m && step == t * m && step * 5 == |tw|
    ensures var a, b1, b2 := At(S, o + u), Twiddled(tw, t, m, S, o, u, 1), Twiddled(tw, t, m, S, o, u, 2);
      var b3, b4 := Twiddled(tw, t, m, S, o, u, 3), Twiddled(tw, t, m, S, o, u, 4);
      var ya, yb := W(tw, step * 1), W(tw, step * 2);
      && ButterflyAt(tw, t, 5, m, S, o, u) == Add(a, Add(Add(b1, b4), Add(b2, b3)))
      && ButterflyAt(tw, t, 5, m, S, o, m + u) == Fifth(a, b1, b2, b3, b4, ya, yb)
      && ButterflyAt(tw, t, 5, m, S, o, 2 * m + u) == Fifth(a, b1, b2, b3, b4, yb, Conj(ya))
      && ButterflyAt(tw, t, 5, m, S, o, 3 * m + u) == Fifth(a, b1, b2, b3, b4, Conj(yb), ya)
      && ButterflyAt(tw, t, 5, m, S, o, 4 * m + u) == Fifth(a, b1, b2, b3, b4, Conj(ya), Conj(yb))
  {
    hide ValidTable, ButterflyAt, At, W, Sum, Mul, Add, Sub, Twiddled, Conj, Fifth;
    FiveRows(tw, inverse, t, m, step, S, o, u, 0);
    FiveRows(tw, inverse, t, m, step, S, o, u, 1);
    FiveRows(tw, inverse, t, m, step, S, o, u, 2);
    FiveRows(tw, inverse, t, m, step, S, o, u, 3);
    FiveRows(tw, inverse, t, m, step, S, o, u, 4);
    FifthRoots(tw, inverse, step);
    var a, b1, b2 := At(S, o + u), Twiddled(tw, t, m, S, o, u, 1), Twiddled(tw, t, m, S, o, u, 2);
    var b3, b4 := Twiddled(tw, t, m, S, o, u, 3), Twiddled(tw, t, m, S, o, u, 4);
    var ya, yb := W(tw, step * 1), W(tw, step * 2);
    ConjTwice(ya);
    ConjTwice(yb);
    FifthOnes(a, b1, b2, b3, b4);
    Radix5Algebra(a, b1, b2, b3, b4, ya, yb);
    Radix5Algebra(a, b1, b2, b3, b4, yb, Conj(ya));
    Radix5Algebra(a, b1, b2, b3, b4, Conj(yb), ya);
    Radix5Algebra(a, b1, b2, b3, b4, Conj(ya), Conj(yb));
  }

  /** Column u replaced by its butterfly outputs. */
  function Rows5(tw: seq<Cpx>, t: int, m: int, S: seq<Cpx>, S1: seq<Cpx>, o: int, u: int): (S2: seq<Cpx>)
    requires 0 <= u < m && 0 <= o && o + 5 * m <= |S1|
    ensures |S2| == |S1|
  {
    S1[o + u := ButterflyAt(tw, t, 5, m, S, o, u)]
      [o + u + m := ButterflyAt(tw, t, 5, m, S, o, m + u)]
      [o + u + 2 * m := ButterflyAt(tw, t, 5, m, S, o, 2 * m + u)]
      [o + u + 3 * m := ButterflyAt(tw, t, 5, m, S, o, 3 * m + u)]
      [o + u + 4 * m := ButterflyAt(tw, t, 5, m, S, o, 4 * m + u)]
  }

  lemma Column5(tw: seq<Cpx>, t: int, m: int, S: seq<Cpx>, S1: seq<Cpx>, S2: seq<Cpx>, o: int, u: int)
    requires 0 <= u < m && 0 <= o && o + 5 * m <= |S|
    requires ColumnsDone(tw, t, 5, m, S, S1, o, u)
    requires S2 == S1[o + u := ButterflyAt(tw, t, 5, m, S, o, u)]
                     [o + u + m := ButterflyAt(tw, t, 5, m, S, o, m + u)]
                     [o + u + 2 * m := ButterflyAt(tw, t, 5, m, S, o, 2 * m + u)]
                     [o + u + 3 * m := ButterflyAt(tw, t, 5, m, S, o, 3 * m + u)]
                     [o + u + 4 * m := ButterflyAt(tw, t, 5, m, S, o, 4 * m + u)]
    ensures ColumnsDone(tw, t, 5, m, S, S2, o, u + 1)
  {
    Column5Set(tw, t, m, S, S1, o, u);
    hide ColumnsDone, ButterflyAt;
  }

  lemma Column5Set(tw: seq<Cpx>, t: int, m: int, S: seq<Cpx>, S1: seq<Cpx>, o: int, u: int)
    requires 0 <= u < m && 0 <= o && o + 5 * m <= |S| == |S1|
    requires ColumnsDone(tw, t, 5, m, S, S1, o, u)
    ensures ColumnsDone(tw, t, 5, m, S, Rows5(tw, t, m, S, S1, o, u), o, u + 1)
  {
    hide *;
    var S2 := Rows5(tw, t, m, S, S1, o, u);
    forall x {:trigger S2[x]} | 0 <= x < |S|
      ensures S2[x] == if o <= x < o + 5 * m && (x - o) % m == u then ButterflyAt(tw, t, 5, m, S, o, x - o) else S1[x]
    {
      Column5At(tw, t, m, S, S1, o, u, x);
    }
    ColumnStep(tw, t, 5, m, S, S1, S2, o, u);
  }

  lemma Column5At(tw: seq<Cpx>, t: int, m: int, S: seq<Cpx>, S1: seq<Cpx>, o: int, u: int, x: int)
    requires 0 <= u < m && 0 <= o && o + 5 * m <= |S| == |S1| && 0 <= x < |S|
    ensures Rows5(tw, t, m, S, S1, o, u)[x]
         == if o <= x < o + 5 * m && (x - o) % m == u then ButterflyAt(tw, t, 5, m, S, o, x - o) else S1[x]
  {
    hide ButterflyAt;
    if o <= x < o + 5 * m && (x - o) % m == u {
      ColumnMember(x - o, 5, m, u);
    } else {
      RowInColumn(0, 5, m, u);
      RowInColumn(1, 5, m, u);
      RowInColumn(2, 5, m, u);
      RowInColumn(3, 5, m, u);
      RowInColumn(4, 5, m, u);
    }
  }

  method Bfly5(Fout: array<Cpx>, o: nat, fstride: nat, tw: seq<Cpx>, ghost inverse: bool, m: nat)
    requires ValidTable(tw, inverse) && fstride > 0 && m > 0 && fstride * 5 * m == |tw|
    requires o + 5 * m <= Fout.Length
    modifies Fout
    ensures BlockDone(tw, fstride, 5, m, old(Fout[..]), Fout[..], o)
  {
    hide ButterflyAt, ValidTable, Mul, At, ColumnsDone, W, BlockDone, Twiddled, Add, Fifth, Conj;
    StepOf(fstride, 5, m, |tw|);
    ghost var S := Fout[..];
    FifthEntries(tw, fstride, m);
    var ya, yb := tw[fstride * m], tw[fstride * 2 * m];
    ColumnsStart(tw, fstride, 5, m, S, o);
    for u := 0 to m
      invariant ColumnsDone(tw, fstride, 5, m, S, Fout[..], o, u)
    {
      ghost var S1 := Fout[..];
      var e := u * fstride;
      Column5Entries(tw, fstride, m, S, S1, o, u, e);
      Radix5(tw, inverse, fstride, m, fstride * m, S, o, u);
      Bfly5Column(Fout, o + u, m, tw[e], tw[2 * e], tw[3 * e], tw[4 * e], ya, yb);
      Column5(tw, fstride, m, S, S1, Fout[..], o, u);
    }
    ColumnsAll(tw, fstride, 5, m, S, Fout[..], o);
  }

  lemma FifthEntries(tw: seq<Cpx>, t: int, m: int)
    requires t > 0 && m > 0 && t * m * 5 == |tw|
    ensures 0 <= t * m < |tw| && 0 <= t * 2 * m < |tw|
    ensures tw[t * m] == W(tw, t * m * 1) && tw[t * 2 * m] == W(tw, t * m * 2)
  {
    hide W;
    assert 0 < t * m && t * 2 * m == t * m * 2;
    Entry(tw, t * m * 1);
    Entry(tw, t * m * 2);
  }

  /** One pass of the radix-5 loop: the five values at x, x+m, ..., x+4m. */
  method Bfly5Column(Fout: array<Cpx>, x: nat, m: nat, w1: Cpx, w2: Cpx, w3: Cpx, w4: Cpx, ya: Cpx, yb: Cpx)
    requires m > 0 && x + 4 * m < Fout.Length
    modifies Fout
    ensures var S := old(Fout[..]);
      var a, b1, b2 := S[x], Mul(S[x + m], w1), Mul(S[x + 2 * m], w2);
      var b3, b4 := Mul(S[x + 3 * m], w3), Mul(S[x + 4 * m], w4);
      Fout[..] == S[x := Add(a, Add(Add(b1, b4), Add(b2, b3)))]
                   [x + m := Fifth(a, b1, b2, b3, b4, ya, yb)]
                   [x + 2 * m := Fifth(a, b1, b2, b3, b4, yb, Conj(ya))]
                   [x + 3 * m := Fifth(a, b1, b2, b3, b4, Conj(yb), ya)]
                   [x + 4 * m := Fifth(a, b1, b2, b3, b4, Conj(ya), Conj(yb))]
  {
    hide Mul, Fifth, Add, Sub, Conj;
    var x1, x2, x3, x4 := x + m, x + 2 * m, x + 3 * m, x + 4 * m;
    var s0 := Fout[x];
    var s1, s2, s3, s4 := Mul(Fout[x1], w1), Mul(Fout[x2], w2), Mul(Fout[x3], w3), Mul(Fout[x4], w4);
    var r0, r1, r2, r3, r4 := Bfly5Values(s0, s1, s2, s3, s4, ya, yb);
    Fout[x] := r0;
    Fout[x1] := r1;
    Fout[x4] := r4;
    Fout[x2] := r2;
    Fout[x3] := r3;
    assert Fout[..] == old(Fout[..])[x := r0][x1 := r1][x2 := r2][x3 := r3][x4 := r4];
  }

  /** The scratch computations of that pass. */
  method Bfly5Values(s0: Cpx, s1: Cpx, s2: Cpx, s3: Cpx, s4: Cpx, ya: Cpx, yb: Cpx)
    returns (r0: Cpx, r1: Cpx, r2: Cpx, r3: Cpx, r4: Cpx)
    ensures r0 == Add(s0, Add(Add(s1, s4), Add(s2, s3)))
    ensures r1 == Fifth(s0, s1, s2, s3, s4, ya, yb)
    ensures r2 == Fifth(s0, s1, s2, s3, s4, yb, Conj(ya))
    ensures r3 == Fifth(s0, s1, s2, s3, s4, Conj(yb), ya)
    ensures r4 == Fifth(s0, s1, s2, s3, s4, Conj(ya), Conj(yb))
  {
    hide Fifth, Add, Sub, Conj;
    var s7, s10, s8, s9 := Add(s1, s4), Sub(s1, s4), Add(s2, s3), Sub(s2, s3);
    r0 := Cpx(s0.r + (s7.r + s8.r), s0.i + (s7.i + s8.i));
    var s5 := Cpx(s0.r + s7.r * ya.r + s8.r * yb.r, s0.i + s7.i * ya.r + s8.i * yb.r);
    var s6 := Cpx(s10.i * ya.i + s9.i * yb.i, -(s10.r * ya.i) - s9.r * yb.i);
    r1 := Sub(s5, s6);
    r4 := Add(s5, s6);
    var s11 := Cpx(s0.r + s7.r * yb.r + s8.r * ya.r, s0.i + s7.i * yb.r + s8.i * ya.r);
    var s12 := Cpx(-(s10.i * yb.i) + s9.i * ya.i, s10.r * yb.i - s9.r * ya.i);
    r2 := Add(s11, s12);
    r3 := Sub(s11, s12);
    FirstOutput(s0, s7, s8);
    FifthPair(s0, s1, s2, s3, s4, ya, yb, s7, s8, s9, s10, s5, s6);
    FifthMiddle(s0, s1, s2, s3, s4, ya, yb, s7, s8, s9, s10, s11, s12);
  }

  /** The order of operations in the radix-5 code: one output and its mirror. */
  lemma FifthPair(a: Cpx, b1: Cpx, b2: Cpx, b3: Cpx, b4: Cpx, y1: Cpx, y2: Cpx, s7: Cpx, s8: Cpx, s9: Cpx, s10: Cpx, s5: Cpx, s6: Cpx)
    requires s7 == Add(b1, b4) && s10 == Sub(b1, b4) && s8 == Add(b2, b3) && s9 == Sub(b2, b3)
    requires s5 == Cpx(a.r + s7.r * y1.r + s8.r * y2.r, a.i + s7.i * y1.r + s8.i * y2.r)
    requires s6 == Cpx(s10.i * y1.i + s9.i * y2.i, -(s10.r * y1.i) - s9.r * y2.i)
    ensures Sub(s5, s6) == Fifth(a, b1, b2, b3, b4, y1, y2)
    ensures Add(s5, s6) == Fifth(a, b1, b2, b3, b4, Conj(y1), Conj(y2))
  {
    FifthMinus(a, b1, b2, b3, b4, y1, y2, s7, s8, s9, s10, s5, s6);
    FifthPlus(a, b1, b2, b3, b4, y1, y2, s7, s8, s9, s10, s5, s6);
  }

  lemma FifthMinus(a: Cpx, b1: Cpx, b2: Cpx, b3: Cpx, b4: Cpx, y1: Cpx, y2: Cpx, s7: Cpx, s8: Cpx, s9: Cpx, s10: Cpx, s5: Cpx, s6: Cpx)
    requires s7 == Add(b1, b4) && s10 == Sub(b1, b4) && s8 == Add(b2, b3) && s9 == Sub(b2, b3)
    requires s5 == Cpx(a.r + s7.r * y1.r + s8.r * y2.r, a.i + s7.i * y1.r + s8.i * y2.r)
    requires s6 == Cpx(s10.i * y1.i + s9.i * y2.i, -(s10.r * y1.i) - s9.r * y2.i)
    ensures Sub(s5, s6) == Fifth(a, b1, b2, b3, b4, y1, y2)
  {
    hide Add;
  }

  lemma FifthPlus(a: Cpx, b1: Cpx, b2: Cpx, b3: Cpx, b4: Cpx, y1: Cpx, y2: Cpx, s7: Cpx, s8: Cpx, s9: Cpx, s10: Cpx, s5: Cpx, s6: Cpx)
    requires s7 == Add(b1, b4) && s10 == Sub(b1, b4) && s8 == Add(b2, b3) && s9 == Sub(b2, b3)
    requires s5 == Cpx(a.r + s7.r * y1.r + s8.r * y2.r, a.i + s7.i * y1.r + s8.i * y2.r)
    requires s6 == Cpx(s10.i * y1.i + s9.i * y2.i, -(s10.r * y1.i) - s9.r * y2.i)
    ensures Add(s5, s6) == Fifth(a, b1, b2, b3, b4, Conj(y1), Conj(y2))
  {
    hide Sub;
    NegatedParts(s10, s9, y1, y2);
  }

  lemma NegatedParts(s: Cpx, t: Cpx, y1: Cpx, y2: Cpx)
    ensures s.i * (-y1.i) == -(s.i * y1.i) && s.r * (-y1.i) == -(s.r * y1.i)
    ensures t.i * (-y2.i) == -(t.i * y2.i) && t.r * (-y2.i) == -(t.r * y2.i)
  {
  }

  /** For the two outputs in the middle the roots change places, the second one
      conjugated. */
  lemma FifthMiddle(a: Cpx, b1: Cpx, b2: Cpx, b3: Cpx, b4: Cpx, ya: Cpx, yb: Cpx, s7: Cpx, s8: Cpx, s9: Cpx, s10: Cpx, s11: Cpx, s12: Cpx)
    requires s7 == Add(b1, b4) && s10 == Sub(b1, b4) && s8 == Add(b2, b3) && s9 == Sub(b2, b3)
    requires s11 == Cpx(a.r + s7.r * yb.r + s8.r * ya.r, a.i + s7.i * yb.r + s8.i * ya.r)
    requires s12 == Cpx(-(s10.i * yb.i) + s9.i * ya.i, s10.r * yb.i - s9.r * ya.i)
    ensures Add(s11, s12) == Fifth(a, b1, b2, b3, b4, yb, Conj(ya))
    ensures Sub(s11, s12) == Fifth(a, b1, b2, b3, b4, Conj(yb), ya)
  {
    hide Fifth, Add, Sub;
    var s6 := Cpx(-s12.r, -s12.i);
    NegatedParts(s10, s9, yb, ya);
    FifthPair(a, b1, b2, b3, b4, yb, Conj(ya), s7, s8, s9, s10, s11, s6);
    TakeAway(s11, s12, s6);
    TwiceConj(ya);
  }

  lemma TakeAway(x: Cpx, y: Cpx, z: Cpx)
    requires z == Cpx(-y.r, -y.i)
    ensures Sub(x, z) == Add(x, y) && Add(x, z) == Sub(x, y)
  {
  }

  lemma TwiceConj(y: Cpx)
    ensures Conj(Conj(y)) == y
  {
  }

  lemma FirstOutput(a: Cpx, s7: Cpx, s8: Cpx)
    ensures Cpx(a.r + (s7.r + s8.r), a.i + (s7.i + s8.i)) == Add(a, Add(s7, s8))
  {
  }

  /** What the code reads for column u of a radix-5 block. */
  lemma Column5Entries(tw: seq<Cpx>, t: int, m: int, S: seq<Cpx>, S1: seq<Cpx>, o: int, u: int, e: int)
    requires t > 0 && 0 <= u < m && t * 5 * m == |tw| && 0 <= o && o + 5 * m <= |S| && e == u * t
    requires ColumnsDone(tw, t, 5, m, S, S1, o, u)
    ensures |S1| == |S| && 0 <= e && 4 * e < |tw|
    ensures S1[o + u] == At(S, o + u)
    ensures Mul(S1[o + u + m], tw[e]) == Twiddled(tw, t, m, S, o, u, 1)
    ensures Mul(S1[o + u + 2 * m], tw[2 * e]) == Twiddled(tw, t, m, S, o, u, 2)
    ensures Mul(S1[o + u + 3 * m], tw[3 * e]) == Twiddled(tw, t, m, S, o, u, 3)
    ensures Mul(S1[o + u + 4 * m], tw[4 * e]) == Twiddled(tw, t, m, S, o, u, 4)
  {
    hide Mul, At, Twiddled, W, ColumnsDone;
    ColumnRead(tw, t, 5, m, S, S1, o, u, 0);
    EntryTimes(tw, t, 5, m, S, S1, o, u, 1, e);
    EntryTimes(tw, t, 5, m, S, S1, o, u, 2, e);
    EntryTimes(tw, t, 5, m, S, S1, o, u, 3, e);
    EntryTimes(tw, t, 5, m, S, S1, o, u, 4, e);
  }

  lemma EntryTimes(tw: seq<Cpx>, t: int, p: nat, m: int, S: seq<Cpx>, S1: seq<Cpx>, o: int, u: int, q: int, e: int)
    requires t > 0 && 0 <= u < m && 0 <= q < p && t * p * m == |tw| && 0 <= o && o + p * m <= |S| && e == u * t
    requires ColumnsDone(tw, t, p, m, S, S1, o, u)
    ensures |S1| == |S| && 0 <= e && 0 <= q * e < |tw| && 0 <= o + u + q * m < |S|
    ensures Mul(S1[o + u + q * m], tw[q * e]) == Twiddled(tw, t, m, S, o, u, q)
  {
    hide Mul, At, Twiddled;
    ColumnEntry(tw, t, p, m, S, S1, o, u, q);
    assert u * t * q == q * e;
  }

  // -------------------------------------------------------- generic radix

  /** S' is S with rows 0 .. r-1 of column u replaced by butterfly outputs. */
  ghost predicate RowsDone(tw: seq<Cpx>, t: int, p: nat, m: int, S: seq<Cpx>, S1: seq<Cpx>, S': seq<Cpx>, o: int, u: int, r: int)
    requires m > 0
  {
    && |S'| == |S1| == |S|
    && forall x {:trigger S'[x]} :: 0 <= x < |S| ==>
         S'[x] == if o <= x < o + r * m && (x - o) % m == u then ButterflyAt(tw, t, p, m, S, o, x - o) else S1[x]
  }

  lemma RowStep(tw: seq<Cpx>, t: int, p: nat, m: int, S: seq<Cpx>, S1: seq<Cpx>, S2: seq<Cpx>, o: int, u: int, r: int)
    requires 0 <= u < m && 0 <= r < p && 0 <= o && o + p * m <= |S|
    requires RowsDone(tw, t, p, m, S, S1, S2, o, u, r)
    ensures 0 <= o + u + r * m < |S|
    ensures RowsDone(tw, t, p, m, S, S1, S2[o + u + r * m := ButterflyAt(tw, t, p, m, S, o, r * m + u)], o, u, r + 1)
  {
    hide ButterflyAt;
    RowInColumn(r, p, m, u);
    var y := o + u + r * m;
    var v := ButterflyAt(tw, t, p, m, S, o, r * m + u);
    var S3 := S2[y := v];
    assert (r + 1) * m == r * m + m;
    assert y - o == r * m + u;
    forall x {:trigger S3[x]} | 0 <= x < |S|
      ensures S3[x] == if o <= x < o + (r + 1) * m && (x - o) % m == u then ButterflyAt(tw, t, p, m, S, o, x - o) else S1[x]
    {
      if o + r * m <= x < o + (r + 1) * m {
        ModUnique(x - o, m, r, x - o - r * m);
      }
    }
  }

  lemma RowsAll(tw: seq<Cpx>, t: int, p: nat, m: int, S: seq<Cpx>, S1: seq<Cpx>, S2: seq<Cpx>, o: int, u: int)
    requires 0 <= u < m
    requires ColumnsDone(tw, t, p, m, S, S1, o, u) && RowsDone(tw, t, p, m, S, S1, S2, o, u, p)
    ensures ColumnsDone(tw, t, p, m, S, S2, o, u + 1)
  {
    hide ButterflyAt;
  }

  /** The table index of q steps. */
  function TableIndex(step: int, q: int, n: int): int
    requires n > 0
  {
    (step * q) % n
  }

  /** One conditional subtraction keeps the table index below n. */
  lemma TwiddleStep(n: int, step: int, q: int)
    requires 0 <= step < n
    ensures var s := TableIndex(step, q, n) + step;
      0 <= s < 2 * n && TableIndex(step, q + 1, n) == if s >= n then s - n else s
  {
    var c, r := (step * q) / n, (step * q) % n;
    assert step * (q + 1) == n * c + (r + step);
    if r + step >= n {
      assert step * (q + 1) == n * (c + 1) + (r + step - n);
      ModUnique(step * (q + 1), n, c + 1, r + step - n);
    } else {
      ModUnique(step * (q + 1), n, c, r + step);
    }
  }

  lemma TableIndexZero(step: int, n: int)
    requires n > 0
    ensures TableIndex(step, 0, n) == 0
  {
  }

  lemma GenericTerm(tw: seq<Cpx>, t: int, m: int, S: seq<Cpx>, o: int, u: int, k: int, step: int, q: nat, twidx: int)
    requires |tw| > 0 && 0 <= u < m && k % m == u && step == t * k && twidx == TableIndex(step, q, |tw|)
    ensures 0 <= twidx < |tw|
    ensures GenericSum(tw, t, m, S, o, k, q + 1) == Add(GenericSum(tw, t, m, S, o, k, q), Mul(At(S, o + u + q * m), tw[twidx]))
  {
    hide Mul, Add, At;
    assert step * q == t * q * k;
  }

  /** The first q terms of a butterfly output. */
  function GenericSum(tw: seq<Cpx>, t: int, m: int, S: seq<Cpx>, o: int, k: int, q: nat): Cpx
    requires m > 0
  {
    Sum(q, q => Mul(At(S, o + k % m + q * m), W(tw, t * q * k)))
  }

  lemma GenericFirst(tw: seq<Cpx>, inverse: bool, t: int, m: int, S: seq<Cpx>, o: int, k: int)
    requires ValidTable(tw, inverse) && m > 0
    ensures GenericSum(tw, t, m, S, o, k, 1) == At(S, o + k % m)
  {
    var f := (q: int) => Mul(At(S, o + k % m + q * m), W(tw, t * q * k));
    assert Sum(1, f) == Add(Sum(0, f), f(0));
    assert t * 0 * k == 0;
    assert W(tw, 0) == One;
    assert 0 * m == 0;
    SumExt(1, f, q => Mul(At(S, o + k % m + q * m), W(tw, t * q * k)));
  }

  method BflyGeneric(Fout: array<Cpx>, o: nat, fstride: nat, tw: seq<Cpx>, ghost inverse: bool, m: nat, p: nat) returns (ok: bool)
    requires ValidTable(tw, inverse) && fstride > 0 && m > 0 && p > 0 && fstride * p * m == |tw|
    requires o + p * m <= Fout.Length
    modifies Fout
    ensures ok == (p <= 17)
    ensures ok ==> BlockDone(tw, fstride, p, m, old(Fout[..]), Fout[..], o)
  {
    hide ButterflyAt, ValidTable, Mul, Add, At, ColumnsDone, W, BlockDone, RowsDone, GenericSum;
    var norig := |tw|;
    if p > 17 {
      return false;
    }
    ghost var S := Fout[..];
    var scratchbuf := new Cpx[17];
    ColumnsStart(tw, fstride, p, m, S, o);
    for u := 0 to m
      invariant ColumnsDone(tw, fstride, p, m, S, Fout[..], o, u)
    {
      ghost var S1 := Fout[..];
      var k := u;
      for q1 := 0 to p
        invariant k == u + q1 * m
        invariant forall q :: 0 <= q < q1 ==> scratchbuf[q] == At(S, o + u + q * m)
        invariant Fout[..] == S1
      {
        ColumnRead(tw, fstride, p, m, S, S1, o, u, q1);
        scratchbuf[q1] := Fout[o + k];
        k := k + m;
      }
      k := u;
      RowsStart(tw, fstride, p, m, S, S1, o, u);
      for q1 := 0 to p
        invariant k == u + q1 * m
        invariant forall q :: 0 <= q < p ==> scratchbuf[q] == At(S, o + u + q * m)
        invariant |S1| == |Fout[..]| && RowsDone(tw, fstride, p, m, S, S1, Fout[..], o, u, q1)
      {
        ghost var S2 := Fout[..];
        RowStep(tw, fstride, p, m, S, S1, S2, o, u, q1);
        RowStride(fstride, p, m, q1, u, norig);
        BflyRow(Fout, o, fstride, tw, inverse, m, p, scratchbuf, S, u, k);
        k := k + m;
      }
      RowsAll(tw, fstride, p, m, S, S1, Fout[..], o, u);
    }
    ColumnsAll(tw, fstride, p, m, S, Fout[..], o);
    return true;
  }

  lemma RowsStart(tw: seq<Cpx>, t: int, p: nat, m: int, S: seq<Cpx>, S1: seq<Cpx>, o: int, u: int)
    requires m > 0 && |S1| == |S|
    ensures RowsDone(tw, t, p, m, S, S1, S1, o, u, 0)
  {
    hide ButterflyAt;
  }

  /** The innermost loop: Fout[o + k] accumulates the p twiddled inputs. */
  method BflyRow(Fout: array<Cpx>, o: nat, fstride: nat, tw: seq<Cpx>, ghost inverse: bool, ghost m: nat, p: nat,
                 scratchbuf: array<Cpx>, ghost S: seq<Cpx>, ghost u: nat, k: nat)
    requires ValidTable(tw, inverse) && m > 0 && 0 < p <= 17
    requires u < m && k % m == u && o + k < Fout.Length && fstride * k < |tw|
    requires scratchbuf != Fout && scratchbuf.Length == 17
    requires forall q :: 0 <= q < p ==> scratchbuf[q] == At(S, o + u + q * m)
    modifies Fout
    ensures Fout[..] == old(Fout[..])[o + k := ButterflyAt(tw, fstride, p, m, S, o, k)]
  {
    hide ValidTable, Mul, Add, At, W, GenericSum, ButterflyAt, TableIndex;
    var norig := |tw|;
    var step := fstride * k;
    TableIndexZero(step, norig);
    var twidx := 0;
    assert At(S, o + k % m) == scratchbuf[0];
    Fout[o + k] := scratchbuf[0];
    GenericFirst(tw, inverse, fstride, m, S, o, k);
    for q := 1 to p
      invariant twidx == TableIndex(step, q - 1, norig)
      invariant Fout[..] == old(Fout[..])[o + k := GenericSum(tw, fstride, m, S, o, k, q)]
    {
      TwiddleStep(norig, step, q - 1);
      twidx := twidx + step;
      if twidx >= norig {
        twidx := twidx - norig;
      }
      GenericTerm(tw, fstride, m, S, o, u, k, step, q, twidx);
      var t := Mul(scratchbuf[q], tw[twidx]);
      Fout[o + k] := Add(Fout[o + k], t);
    }
    GenericAll(tw, fstride, p, m, S, o, k);
  }

  lemma RowStride(t: int, p: int, m: int, q1: int, u: int, n: int)
    requires t > 0 && 0 <= q1 < p && 0 <= u < m && t * p * m == n
    ensures (q1 * m + u) % m == u && 0 <= t * (q1 * m + u) < n
  {
    RowInColumn(q1, p, m, u);
    assert t * (p * m) == t * p * m;
    MulLessThan(t, q1 * m + u, p * m);
  }

  lemma MulLessThan(t: int, a: int, b: int)
    requires t > 0 && 0 <= a < b
    ensures 0 <= t * a < t * b
  {
  }

  lemma GenericAll(tw: seq<Cpx>, t: int, p: nat, m: int, S: seq<Cpx>, o: int, k: int)
    requires m > 0
    ensures GenericSum(tw, t, m, S, o, k, p) == ButterflyAt(tw, t, p, m, S, o, k)
  {
    hide Mul, At, W;
    var f := (q: int) => Mul(At(S, o + k % m + q * m), W(tw, t * q * k));
    SumExt(p, f, q => Mul(At(S, o + k % m + q * m), W(tw, t * q * k)));
    SumExt(p, f, q => Mul(At(S, o + k % m + q * m), W(tw, t * q * k)));
  }
}
