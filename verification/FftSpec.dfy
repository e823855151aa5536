/** The mixed-radix transform of kiss_fft.c as functions on sequences, and the
    proof that it equals the plain discrete Fourier transform. */
module FftSpec {
  import opened IntArith
  import opened Complex
  import opened Twiddles

  // -------------------------------------------------------------- factors

  /** The buffer reads p1, m1, p2, m2, ... with p1 m1 = n, p2 m2 = m1, ...,
      down to a last m of 1. Whatever follows is not read. */
  ghost predicate Factored(fac: seq<int>, n: int) {
    && |fac| >= 2 && fac[0] >= 1 && fac[1] >= 1
    && fac[0] * fac[1] == n
    && (fac[1] > 1 ==> Factored(fac[2..], fac[1]))
  }

  /** Every radix the stages use is one the generic butterfly can hold. */
  predicate SmallRadices(fac: seq<int>) {
    && |fac| >= 2 && fac[0] <= 17
    && (fac[1] > 1 ==> SmallRadices(fac[2..]))
  }

  // -------------------------------------------------------------- shuffle

  /** The input position, in units of the stride, that the shuffle copies to
      position k of a block: the mixed-radix digits of k in reverse. */
  function Rev(fac: seq<int>, k: int): int
    decreases |fac|
  {
    if |fac| < 2 || fac[1] <= 1 then k
    else k / fac[1] + fac[0] * Rev(fac[2..], k % fac[1])
  }

  /** The output position of input position j. */
  function Place(fac: seq<int>, j: int): int
    decreases |fac|
  {
    if |fac| < 2 || fac[1] <= 1 || fac[0] < 1 then j
    else (j % fac[0]) * fac[1] + Place(fac[2..], j / fac[0])
  }

  lemma DivBound(k: int, p: int, m: int)
    requires p > 0 && m > 0 && 0 <= k < p * m
    ensures 0 <= k / m < p && 0 <= k % m < m && k == (k / m) * m + k % m
  {
    assert k == m * (k / m) + k % m;
    MulCancel(m, k / m, p);
  }

  lemma MulCancel(m: int, a: int, b: int)
    requires m > 0 && m * a < m * b
    ensures a < b
  {
  }

  lemma PairBound(q: int, r: int, p: int, m: int)
    requires 0 <= q < p && 0 <= r < m
    ensures 0 <= q * m + r < p * m
    ensures (q * m + r) / m == q && (q * m + r) % m == r
  {
    RowBound(q, p, m);
    ModUnique(q * m + r, m, q, r);
  }

  /** The shuffle permutes each block: Rev and Place are mutually inverse. */
  lemma {:induction false} ShuffleIsBijection(fac: seq<int>, n: int, k: int)
    requires Factored(fac, n) && 0 <= k < n
    ensures 0 <= Rev(fac, k) < n && 0 <= Place(fac, k) < n
    ensures Place(fac, Rev(fac, k)) == k && Rev(fac, Place(fac, k)) == k
    decreases |fac|
  {
    var p, m := fac[0], fac[1];
    if m > 1 {
      DivBound(k, p, m);
      ShuffleIsBijection(fac[2..], m, k % m);
      var r := Rev(fac[2..], k % m);
      PairBound(r, k / m, m, p);
      assert k / m + p * r == r * p + k / m;

      DivBound(k, m, p);
      ShuffleIsBijection(fac[2..], m, k / p);
      PairBound(k % p, Place(fac[2..], k / p), p, m);
      assert k == k % p + p * (k / p);
    }
  }

  // --------------------------------------------------------------- stages

  /** Output k of a radix-p butterfly on the p*m values of S from o. */
  function ButterflyAt(tw: seq<Cpx>, t: int, p: nat, m: int, S: seq<Cpx>, o: int, k: int): Cpx
    requires m > 0
  {
    Sum(p, q => Mul(At(S, o + k % m + q * m), W(tw, t * q * k)))
  }

  /** Position k after one stage of butterflies on consecutive blocks. */
  function StageAt(tw: seq<Cpx>, t: int, p: nat, m: int, S: seq<Cpx>, k: int): Cpx
    requires p > 0 && m > 0
  {
    ButterflyAt(tw, t, p, m, S, k / (p * m) * (p * m), k % (p * m))
  }

  function Stage(tw: seq<Cpx>, t: int, p: nat, m: int, S: seq<Cpx>): (S': seq<Cpx>)
    requires p > 0 && m > 0
    ensures |S'| == |S|
  {
    seq(|S|, k => StageAt(tw, t, p, m, S, k))
  }

  /** All the stages, innermost first. */
  function Work(tw: seq<Cpx>, t: int, fac: seq<int>, S: seq<Cpx>): (S': seq<Cpx>)
    ensures |S'| == |S|
    decreases |fac|
  {
    if |fac| < 2 || fac[0] < 1 || fac[1] < 1 then S
    else if fac[1] == 1 then Stage(tw, t, fac[0], 1, S)
    else Stage(tw, t, fac[0], fac[1], Work(tw, t * fac[0], fac[2..], S))
  }

  /** Position r of block b, when blocks hold len values. */
  function Slot(b: int, len: int, r: int): int {
    b * len + r
  }

  /** Block b of S is the digit-reversed gather of len samples of f taken from
      base(b) at the given stride. */
  ghost predicate Shuffled(fac: seq<int>, blocks: int, len: int, S: seq<Cpx>, f: seq<Cpx>, base: int -> int, stride: int) {
    && |S| == blocks * len
    && forall b, r {:trigger Slot(b, len, r)} :: 0 <= b < blocks && 0 <= r < len ==>
         At(S, Slot(b, len, r)) == At(f, base(b) + stride * Rev(fac, r))
  }

  /** Block b of S is the transform of those samples in natural order. */
  ghost predicate Transformed(tw: seq<Cpx>, t: int, blocks: int, len: nat, S: seq<Cpx>, f: seq<Cpx>, base: int -> int, stride: int) {
    && |S| == blocks * len
    && forall b, k {:trigger Slot(b, len, k)} :: 0 <= b < blocks && 0 <= k < len ==>
         At(S, Slot(b, len, k)) == DftFrom(tw, t, f, base(b), stride, len, k)
  }

  /** A twiddle of the inner transform only depends on its bin modulo m. */
  lemma InnerTwiddle(tw: seq<Cpx>, t: int, p: int, m: int, i: int, k: int)
    requires |tw| > 0 && t * p * m == |tw| && m > 0
    ensures W(tw, t * p * i * (k % m)) == W(tw, t * p * i * k)
  {
    var n := |tw|;
    var d := k / m;
    calc {
      t * p * i * k;
      { assert k == m * d + k % m; }
      t * p * i * (m * d + k % m);
      t * p * i * (m * d) + t * p * i * (k % m);
      { MulRearrange(t * p, i, m, d); }
      t * p * i * (k % m) + n * (i * d);
    }
    WShift(tw, t * p * i * (k % m), i * d);
  }

  lemma MulRearrange(a: int, b: int, c: int, d: int)
    ensures a * b * (c * d) == (a * c) * (b * d)
  {
    calc {
      a * b * (c * d);
      a * (b * (c * d));
      { assert b * (c * d) == c * (b * d); }
      a * (c * (b * d));
      (a * c) * (b * d);
    }
  }

  /** Decimation in time: the transform of p*m samples is the twiddled sum of
      the transforms of its p interleaved parts. */
  lemma Decimation(tw: seq<Cpx>, inverse: bool, t: int, p: nat, m: nat, f: seq<Cpx>, base: int, stride: int, k: int)
    requires ValidTable(tw, inverse) && m > 0 && t * p * m == |tw|
    ensures DftFrom(tw, t, f, base, stride, p * m, k)
         == Sum(p, q => Mul(DftFrom(tw, t * p, f, base + stride * q, stride * p, m, k % m), W(tw, t * q * k)))
  {
    hide Mul, Add, Sum, W, At, ValidTable;
    var term := (j: int) => DftTerm(tw, t, f, base, stride, k, j);
    SumExt(p * m, term, j => Mul(At(f, base + stride * j), W(tw, t * j * k)));
    SumDecimate(p, m, term);
    var part := (q: int) => Mul(DftFrom(tw, t * p, f, base + stride * q, stride * p, m, k % m), W(tw, t * q * k));
    forall q | 0 <= q < p
      ensures Residue(p, m, term, q) == part(q)
    {
      DecimationPart(tw, inverse, t, p, m, f, base, stride, k, q);
      ResidueTerms(p, m, tw, t, f, base, stride, k, q, term);
    }
    SumExt(p, q => Residue(p, m, term, q), part);
    SumExt(p, q => Mul(DftFrom(tw, t * p, f, base + stride * q, stride * p, m, k % m), W(tw, t * q * k)), part);
  }

  lemma ResidueTerms(p: nat, m: nat, tw: seq<Cpx>, t: int, f: seq<Cpx>, base: int, stride: int, k: int, q: int, term: int -> Cpx)
    requires forall j :: term(j) == DftTerm(tw, t, f, base, stride, k, j)
    ensures Residue(p, m, term, q) == Sum(m, i => DftTerm(tw, t, f, base, stride, k, p * i + q))
  {
    hide Sum, DftTerm;
    SumExt(m, i => term(p * i + q), i => DftTerm(tw, t, f, base, stride, k, p * i + q));
  }

  function DftTerm(tw: seq<Cpx>, t: int, f: seq<Cpx>, base: int, stride: int, k: int, j: int): Cpx {
    Mul(At(f, base + stride * j), W(tw, t * j * k))
  }

  lemma DecimationPart(tw: seq<Cpx>, inverse: bool, t: int, p: nat, m: nat, f: seq<Cpx>, base: int, stride: int, k: int, q: int)
    requires ValidTable(tw, inverse) && m > 0 && t * p * m == |tw|
    ensures Sum(m, i => DftTerm(tw, t, f, base, stride, k, p * i + q))
         == Mul(DftFrom(tw, t * p, f, base + stride * q, stride * p, m, k % m), W(tw, t * q * k))
  {
    hide Mul, Add, Sum, W, At, ValidTable;
    var c := W(tw, t * q * k);
    var inner := (i: int) => DftTerm(tw, t * p, f, base + stride * q, stride * p, k % m, i);
    SumMul(m, inner, c);
    forall i | 0 <= i < m
      ensures DftTerm(tw, t, f, base, stride, k, p * i + q) == Mul(inner(i), c)
    {
      InnerTerm(tw, inverse, t, p, m, f, base, stride, k, q, i);
    }
    SumExt(m, i => DftTerm(tw, t, f, base, stride, k, p * i + q), i => Mul(inner(i), c));
    SumExt(m, inner, j => Mul(At(f, (base + stride * q) + (stride * p) * j), W(tw, (t * p) * j * (k % m))));
  }

  lemma SplitProduct(a: int, p: int, i: int, q: int)
    ensures a * (p * i + q) == a * p * i + a * q
  {
    assert a * (p * i + q) == a * (p * i) + a * q;
  }

  lemma InnerTerm(tw: seq<Cpx>, inverse: bool, t: int, p: int, m: int, f: seq<Cpx>, base: int, stride: int, k: int, q: int, i: int)
    requires ValidTable(tw, inverse) && m > 0 && t * p * m == |tw|
    ensures DftTerm(tw, t, f, base, stride, k, p * i + q)
         == Mul(DftTerm(tw, t * p, f, base + stride * q, stride * p, k % m, i), W(tw, t * q * k))
  {
    assert |tw| > 0;
    hide *;
    var a, x, y := base + stride * q + stride * p * i, W(tw, t * p * i * k), W(tw, t * q * k);
    OuterTerm(tw, inverse, t, p, f, base, stride, k, q, i, a, x, y);
    InsideTerm(tw, t, p, m, f, base, stride, k, q, i, a, x);
    MulAssoc(At(f, a), x, y);
  }

  lemma OuterTerm(tw: seq<Cpx>, inverse: bool, t: int, p: int, f: seq<Cpx>, base: int, stride: int, k: int, q: int, i: int, a: int, x: Cpx, y: Cpx)
    requires ValidTable(tw, inverse) && |tw| > 0
    requires a == base + stride * q + stride * p * i && x == W(tw, t * p * i * k) && y == W(tw, t * q * k)
    ensures DftTerm(tw, t, f, base, stride, k, p * i + q) == Mul(At(f, a), Mul(x, y))
  {
    hide *;
    SplitProduct(stride, p, i, q);
    OuterTwiddle(tw, inverse, t, p, q, i, k);
    TermIs(tw, t, f, base, stride, k, p * i + q, a, t * (p * i + q) * k);
  }

  lemma InsideTerm(tw: seq<Cpx>, t: int, p: int, m: int, f: seq<Cpx>, base: int, stride: int, k: int, q: int, i: int, a: int, x: Cpx)
    requires m > 0 && t * p * m == |tw| > 0
    requires a == base + stride * q + stride * p * i && x == W(tw, t * p * i * k)
    ensures DftTerm(tw, t * p, f, base + stride * q, stride * p, k % m, i) == Mul(At(f, a), x)
  {
    hide *;
    InnerTwiddle(tw, t, p, m, i, k);
    TermIs(tw, t * p, f, base + stride * q, stride * p, k % m, i, a, t * p * i * (k % m));
  }

  lemma TermIs(tw: seq<Cpx>, t: int, f: seq<Cpx>, base: int, stride: int, k: int, j: int, a: int, e: int)
    requires |tw| > 0 && a == base + stride * j && e == t * j * k
    ensures DftTerm(tw, t, f, base, stride, k, j) == Mul(At(f, a), W(tw, e))
  {
    hide Mul, At, W;
  }

  lemma OuterTwiddle(tw: seq<Cpx>, inverse: bool, t: int, p: int, q: int, i: int, k: int)
    requires ValidTable(tw, inverse)
    ensures W(tw, t * (p * i + q) * k) == Mul(W(tw, t * p * i * k), W(tw, t * q * k))
  {
    hide Mul, W, ValidTable;
    var a, b := t * p * i, t * q;
    SplitProduct(t, p, i, q);
    assert (a + b) * k == a * k + b * k;
    WMul(tw, inverse, a * k, b * k);
  }

  /** Block c of the inner stage starts at sample c mod p of its outer block. */
  function InnerBase(base: int -> int, p: int, stride: int): int -> int {
    if p == 0 then base else c => base(c / p) + stride * (c % p)
  }

  lemma StageIndex(b: int, p: int, m: int, k: int, q: int)
    requires p > 0 && m > 0 && b >= 0 && 0 <= k < p * m && 0 <= q < p
    ensures (b * (p * m) + k) / (p * m) == b && (b * (p * m) + k) % (p * m) == k
    ensures b * (p * m) + k % m + q * m == (b * p + q) * m + k % m
    ensures (b * p + q) / p == b && (b * p + q) % p == q && b * p + q >= 0
  {
    ModUnique(b * (p * m) + k, p * m, b, k);
    ModUnique(b * p + q, p, b, q);
    assert (b * p + q) * m == b * (p * m) + q * m;
  }

  /** The butterfly stage joins p transforms of m points into one of p*m. */
  lemma StageJoins(tw: seq<Cpx>, inverse: bool, t: int, p: nat, m: nat, blocks: nat, S: seq<Cpx>, f: seq<Cpx>, base: int -> int, stride: int)
    requires ValidTable(tw, inverse) && p > 0 && m > 0 && t * p * m == |tw|
    requires Transformed(tw, t * p, blocks * p, m, S, f, InnerBase(base, p, stride), stride * p)
    ensures Transformed(tw, t, blocks, p * m, Stage(tw, t, p, m, S), f, base, stride)
  {
    hide Mul, Add, Sum, W, ValidTable, DftFrom, StageAt, ButterflyAt, InnerBase;
    var S' := Stage(tw, t, p, m, S);
    assert blocks * (p * m) == blocks * p * m;
    forall b, k {:trigger Slot(b, p * m, k)} | 0 <= b < blocks && 0 <= k < p * m
      ensures At(S', Slot(b, p * m, k)) == DftFrom(tw, t, f, base(b), stride, p * m, k)
    {
      PairBound(b, k, blocks, p * m);
      StageIndex(b, p, m, k, 0);
      StagePoint(tw, inverse, t, p, m, blocks, S, f, base, stride, b, k);
    }
  }

  lemma StagePoint(tw: seq<Cpx>, inverse: bool, t: int, p: nat, m: nat, blocks: nat, S: seq<Cpx>, f: seq<Cpx>, base: int -> int, stride: int, b: int, k: int)
    requires ValidTable(tw, inverse) && p > 0 && m > 0 && t * p * m == |tw|
    requires 0 <= b < blocks && 0 <= k < p * m
    requires Transformed(tw, t * p, blocks * p, m, S, f, InnerBase(base, p, stride), stride * p)
    ensures StageAt(tw, t, p, m, S, b * (p * m) + k) == DftFrom(tw, t, f, base(b), stride, p * m, k)
  {
    hide *;
    StageAtIs(tw, t, p, m, S, b, k);
    StageRows(tw, t, p, m, blocks, S, f, base, stride, b, k);
    RowsJoin(tw, inverse, t, p, m, S, f, b * (p * m), base(b), stride, k);
  }

  /** Input q of bin k of a stage, and the inner transform it should be. */
  function RowAt(m: int, S: seq<Cpx>, o: int, k: int, q: int): Cpx
    requires m > 0
  {
    At(S, o + k % m + q * m)
  }

  function RowDft(tw: seq<Cpx>, t: int, p: nat, m: nat, f: seq<Cpx>, base: int, stride: int, k: int, q: int): Cpx
    requires m > 0
  {
    DftFrom(tw, t * p, f, base + stride * q, stride * p, m, k % m)
  }

  lemma StageRows(tw: seq<Cpx>, t: int, p: nat, m: nat, blocks: nat, S: seq<Cpx>, f: seq<Cpx>, base: int -> int, stride: int, b: int, k: int)
    requires p > 0 && m > 0 && 0 <= b < blocks && 0 <= k < p * m
    requires Transformed(tw, t * p, blocks * p, m, S, f, InnerBase(base, p, stride), stride * p)
    ensures RowsMatch(tw, t, p, m, S, f, b * (p * m), base(b), stride, k)
  {
    hide Transformed, InnerBase, RowAt, RowDft;
    forall q | 0 <= q < p
      ensures RowAt(m, S, b * (p * m), k, q) == RowDft(tw, t, p, m, f, base(b), stride, k, q)
    {
      StageInput(tw, t, p, m, blocks, S, f, base, stride, b, k, q);
      RowsAre(tw, t, p, m, S, f, b * (p * m), base(b), stride, k, q);
    }
  }

  lemma RowsAre(tw: seq<Cpx>, t: int, p: nat, m: nat, S: seq<Cpx>, f: seq<Cpx>, o: int, base: int, stride: int, k: int, q: int)
    requires m > 0 && At(S, o + k % m + q * m) == DftFrom(tw, t * p, f, base + stride * q, stride * p, m, k % m)
    ensures RowAt(m, S, o, k, q) == RowDft(tw, t, p, m, f, base, stride, k, q)
  {
    hide At, DftFrom;
  }

  lemma StageAtIs(tw: seq<Cpx>, t: int, p: nat, m: nat, S: seq<Cpx>, b: int, k: int)
    requires p > 0 && m > 0 && b >= 0 && 0 <= k < p * m
    ensures StageAt(tw, t, p, m, S, b * (p * m) + k) == ButterflyAt(tw, t, p, m, S, b * (p * m), k)
  {
    hide ButterflyAt;
    StageIndex(b, p, m, k, 0);
  }

  lemma RowsJoin(tw: seq<Cpx>, inverse: bool, t: int, p: nat, m: nat, S: seq<Cpx>, f: seq<Cpx>, o: int, base: int, stride: int, k: int)
    requires ValidTable(tw, inverse) && m > 0 && t * p * m == |tw|
    requires RowsMatch(tw, t, p, m, S, f, o, base, stride, k)
    ensures ButterflyAt(tw, t, p, m, S, o, k) == DftFrom(tw, t, f, base, stride, p * m, k)
  {
    hide *;
    Decimation(tw, inverse, t, p, m, f, base, stride, k);
    RowSums(tw, t, p, m, S, f, o, base, stride, k);
  }

  ghost predicate RowsMatch(tw: seq<Cpx>, t: int, p: nat, m: nat, S: seq<Cpx>, f: seq<Cpx>, o: int, base: int, stride: int, k: int)
    requires m > 0
  {
    forall q :: 0 <= q < p ==> RowAt(m, S, o, k, q) == RowDft(tw, t, p, m, f, base, stride, k, q)
  }

  lemma RowSums(tw: seq<Cpx>, t: int, p: nat, m: nat, S: seq<Cpx>, f: seq<Cpx>, o: int, base: int, stride: int, k: int)
    requires m > 0 && RowsMatch(tw, t, p, m, S, f, o, base, stride, k)
    ensures ButterflyAt(tw, t, p, m, S, o, k)
         == Sum(p, q => Mul(DftFrom(tw, t * p, f, base + stride * q, stride * p, m, k % m), W(tw, t * q * k)))
  {
    hide Mul, Sum, W, DftFrom, At;
    var got := (q: int) => Mul(RowAt(m, S, o, k, q), W(tw, t * q * k));
    var want := (q: int) => Mul(RowDft(tw, t, p, m, f, base, stride, k, q), W(tw, t * q * k));
    SumExt(p, got, want);
    SumExt(p, q => Mul(DftFrom(tw, t * p, f, base + stride * q, stride * p, m, k % m), W(tw, t * q * k)), want);
    SumExt(p, q => Mul(At(S, o + k % m + q * m), W(tw, t * q * k)), got);
  }

  lemma StageInput(tw: seq<Cpx>, t: int, p: nat, m: nat, blocks: nat, S: seq<Cpx>, f: seq<Cpx>, base: int -> int, stride: int, b: int, k: int, q: int)
    requires p > 0 && m > 0 && 0 <= b < blocks && 0 <= k < p * m && 0 <= q < p
    requires Transformed(tw, t * p, blocks * p, m, S, f, InnerBase(base, p, stride), stride * p)
    ensures At(S, b * (p * m) + k % m + q * m) == DftFrom(tw, t * p, f, base(b) + stride * q, stride * p, m, k % m)
  {
    hide Transformed, DftFrom, At;
    StageIndex(b, p, m, k, q);
    PairBound(b, q, blocks, p);
    TransformedAt(tw, t * p, blocks * p, m, S, f, InnerBase(base, p, stride), stride * p, b * p + q, k % m);
  }

  lemma TransformedAt(tw: seq<Cpx>, t: int, blocks: int, len: nat, S: seq<Cpx>, f: seq<Cpx>, base: int -> int, stride: int, b: int, k: int)
    requires Transformed(tw, t, blocks, len, S, f, base, stride) && 0 <= b < blocks && 0 <= k < len
    ensures At(S, Slot(b, len, k)) == DftFrom(tw, t, f, base(b), stride, len, k)
  {
    hide At, DftFrom;
  }

  /** Single samples are one-point transforms. */
  lemma OnePoint(tw: seq<Cpx>, inverse: bool, t: int, f: seq<Cpx>, base: int, stride: int)
    requires ValidTable(tw, inverse)
    ensures DftFrom(tw, t, f, base, stride, 1, 0) == At(f, base)
  {
    var g := (j: int) => Mul(At(f, base + stride * j), W(tw, t * j * 0));
    assert Sum(1, g) == Add(Sum(0, g), g(0));
    assert t * 0 * 0 == 0;
    assert W(tw, 0) == One;
  }

  lemma InnerShuffled(fac: seq<int>, len: nat, blocks: nat, S: seq<Cpx>, f: seq<Cpx>, base: int -> int, stride: int)
    requires Factored(fac, len) && fac[1] > 1
    requires Shuffled(fac, blocks, len, S, f, base, stride)
    ensures Shuffled(fac[2..], blocks * fac[0], fac[1], S, f, InnerBase(base, fac[0], stride), stride * fac[0])
  {
    var p, m := fac[0], fac[1];
    assert blocks * (p * m) == blocks * p * m;
    forall c, r {:trigger Slot(c, m, r)} | 0 <= c < blocks * p && 0 <= r < m
      ensures At(S, Slot(c, m, r)) == At(f, InnerBase(base, p, stride)(c) + stride * p * Rev(fac[2..], r))
    {
      InnerShuffledPoint(fac, len, blocks, S, f, base, stride, c, r);
    }
  }

  lemma ShuffledAt(fac: seq<int>, blocks: int, len: int, S: seq<Cpx>, f: seq<Cpx>, base: int -> int, stride: int, b: int, k: int)
    requires Shuffled(fac, blocks, len, S, f, base, stride)
    requires 0 <= b < blocks && 0 <= k < len
    ensures At(S, Slot(b, len, k)) == At(f, base(b) + stride * Rev(fac, k))
  {
    hide Rev, At;
  }

  lemma RevDigit(fac: seq<int>, q: int, r: int)
    requires |fac| >= 2 && fac[1] > 1 && 0 <= r < fac[1]
    ensures Rev(fac, q * fac[1] + r) == q + fac[0] * Rev(fac[2..], r)
  {
    ModUnique(q * fac[1] + r, fac[1], q, r);
  }

  lemma InnerShuffledPoint(fac: seq<int>, len: nat, blocks: nat, S: seq<Cpx>, f: seq<Cpx>, base: int -> int, stride: int, c: int, r: int)
    requires Factored(fac, len) && fac[1] > 1
    requires Shuffled(fac, blocks, len, S, f, base, stride)
    requires 0 <= c < blocks * fac[0] && 0 <= r < fac[1]
    ensures At(S, Slot(c, fac[1], r)) == At(f, InnerBase(base, fac[0], stride)(c) + stride * fac[0] * Rev(fac[2..], r))
  {
    hide Rev, At, Shuffled, Slot;
    var b, q := c / fac[0], c % fac[0];
    DivBound(c, blocks, fac[0]);
    assert c == b * fac[0] + q;
    InnerShuffledSlot(fac, len, blocks, S, f, base, stride, b, q, r);
    hide Factored;
    assert InnerBase(base, fac[0], stride)(c) == base(b) + stride * q;
  }

  lemma InnerShuffledSlot(fac: seq<int>, len: nat, blocks: nat, S: seq<Cpx>, f: seq<Cpx>, base: int -> int, stride: int, b: int, q: int, r: int)
    requires Factored(fac, len) && fac[1] > 1
    requires Shuffled(fac, blocks, len, S, f, base, stride)
    requires 0 <= b < blocks && 0 <= q < fac[0] && 0 <= r < fac[1]
    ensures At(S, Slot(b * fac[0] + q, fac[1], r)) == At(f, base(b) + stride * q + stride * fac[0] * Rev(fac[2..], r))
  {
    hide Rev, At, Shuffled, Slot;
    var p, m := fac[0], fac[1];
    PairBound(q, r, p, m);
    SlotNest(b, p, q, m, r);
    RevDigit(fac, q, r);
    SplitProduct(stride, p, Rev(fac[2..], r), q);
    ShuffledAt(fac, blocks, len, S, f, base, stride, b, q * m + r);
  }

  lemma SlotNest(b: int, p: int, q: int, m: int, r: int)
    ensures Slot(b * p + q, m, r) == Slot(b, p * m, q * m + r)
  {
    assert (b * p + q) * m == b * (p * m) + q * m;
  }

  lemma LeafRev(fac: seq<int>, k: int)
    requires |fac| >= 2 && fac[1] == 1
    ensures Rev(fac, k) == k
  {
  }

  lemma LeafAt(tw: seq<Cpx>, inverse: bool, t: int, fac: seq<int>, blocks: nat, S: seq<Cpx>, f: seq<Cpx>, base: int -> int, stride: int, c: int)
    requires ValidTable(tw, inverse) && |fac| >= 2 && fac[0] > 0 && fac[1] == 1
    requires Shuffled(fac, blocks, fac[0], S, f, base, stride) && 0 <= c < blocks * fac[0]
    ensures At(S, Slot(c, 1, 0)) == DftFrom(tw, t, f, InnerBase(base, fac[0], stride)(c), stride * fac[0], 1, 0)
  {
    hide At, DftFrom, ValidTable, Rev;
    var p := fac[0];
    DivBound(c, blocks, p);
    LeafRev(fac, c % p);
    assert At(S, Slot(c / p, p, c % p)) == At(f, base(c / p) + stride * Rev(fac, c % p));
    OnePoint(tw, inverse, t, f, InnerBase(base, p, stride)(c), stride * p);
  }

  lemma LeafTransformed(tw: seq<Cpx>, inverse: bool, t: int, fac: seq<int>, len: nat, blocks: nat, S: seq<Cpx>, f: seq<Cpx>, base: int -> int, stride: int)
    requires ValidTable(tw, inverse) && Factored(fac, len) && fac[1] == 1
    requires Shuffled(fac, blocks, len, S, f, base, stride)
    ensures Transformed(tw, t * fac[0], blocks * fac[0], 1, S, f, InnerBase(base, fac[0], stride), stride * fac[0])
  {
    var p := fac[0];
    assert |fac| >= 2 && p > 0 && len == p;
    assert |S| == blocks * p * 1;
    hide *;
    forall c, k {:trigger Slot(c, 1, k)} | 0 <= c < blocks * p && 0 <= k < 1
      ensures At(S, Slot(c, 1, k)) == DftFrom(tw, t * p, f, InnerBase(base, p, stride)(c), stride * p, 1, k)
    {
      LeafAt(tw, inverse, t * p, fac, blocks, S, f, base, stride, c);
    }
    Transforms(tw, t * p, blocks * p, S, f, InnerBase(base, p, stride), stride * p);
  }

  lemma Transforms(tw: seq<Cpx>, t: int, blocks: int, S: seq<Cpx>, f: seq<Cpx>, base: int -> int, stride: int)
    requires |S| == blocks * 1
    requires forall c, k {:trigger Slot(c, 1, k)} :: 0 <= c < blocks && 0 <= k < 1 ==> At(S, Slot(c, 1, k)) == DftFrom(tw, t, f, base(c), stride, 1, k)
    ensures Transformed(tw, t, blocks, 1, S, f, base, stride)
  {
    hide At, DftFrom, Slot;
  }

  /** The stages turn digit-reversed blocks into transforms in natural order. */
  lemma {:induction false} WorkTransforms(tw: seq<Cpx>, inverse: bool, t: int, fac: seq<int>, len: nat, blocks: nat, S: seq<Cpx>, f: seq<Cpx>, base: int -> int, stride: int)
    requires ValidTable(tw, inverse) && Factored(fac, len) && t * len == |tw|
    requires Shuffled(fac, blocks, len, S, f, base, stride)
    ensures Transformed(tw, t, blocks, len, Work(tw, t, fac, S), f, base, stride)
    decreases |fac|
  {
    hide At, DftFrom, ValidTable, Shuffled, Transformed;
    var p, m := fac[0], fac[1];
    assert t * p * m == t * (p * m);
    if m == 1 {
      LeafTransformed(tw, inverse, t, fac, len, blocks, S, f, base, stride);
      StageJoins(tw, inverse, t, p, 1, blocks, S, f, base, stride);
    } else {
      InnerShuffled(fac, len, blocks, S, f, base, stride);
      var S' := Work(tw, t * p, fac[2..], S);
      WorkTransforms(tw, inverse, t * p, fac[2..], m, blocks * p, S, f, InnerBase(base, p, stride), stride * p);
      StageJoins(tw, inverse, t, p, m, blocks, S', f, base, stride);
    }
  }

  /** Shuffle and stages together compute the plain transform. */
  lemma FftIsDft(tw: seq<Cpx>, inverse: bool, fac: seq<int>, S: seq<Cpx>, f: seq<Cpx>, stride: int, k: int)
    requires ValidTable(tw, inverse) && Factored(fac, |tw|) && |S| == |tw|
    requires forall r :: 0 <= r < |S| ==> S[r] == At(f, stride * Rev(fac, r))
    requires 0 <= k < |tw|
    ensures Work(tw, 1, fac, S)[k] == Dft(tw, f, stride, k)
  {
    hide Mul, W, At, ValidTable, Shuffled, Transformed, Work, Factored, Sum, Rev;
    var n := |tw|;
    WholeShuffled(fac, n, S, f, stride);
    WorkTransforms(tw, inverse, 1, fac, n, 1, S, f, _ => 0, stride);
    var S' := Work(tw, 1, fac, S);
    WholeTransformed(tw, n, S', f, stride, k);
    SumExt(n, j => Mul(At(f, 0 + stride * j), W(tw, 1 * j * k)), j => Mul(At(f, stride * j), W(tw, j * k)));
  }

  lemma WholeTransformed(tw: seq<Cpx>, n: nat, S: seq<Cpx>, f: seq<Cpx>, stride: int, k: int)
    requires Transformed(tw, 1, 1, n, S, f, _ => 0, stride) && 0 <= k < n
    ensures S[k] == DftFrom(tw, 1, f, 0, stride, n, k)
  {
    hide DftFrom;
    assert Slot(0, n, k) == k;
    assert At(S, Slot(0, n, k)) == DftFrom(tw, 1, f, 0, stride, n, k);
  }

  lemma WholeShuffled(fac: seq<int>, n: nat, S: seq<Cpx>, f: seq<Cpx>, stride: int)
    requires |S| == n
    requires forall r :: 0 <= r < |S| ==> S[r] == At(f, stride * Rev(fac, r))
    ensures Shuffled(fac, 1, n, S, f, _ => 0, stride)
  {
    hide Rev;
    forall b, r {:trigger Slot(b, n, r)} | 0 <= b < 1 && 0 <= r < n
      ensures At(S, Slot(b, n, r)) == At(f, 0 + stride * Rev(fac, r))
    {
      assert Slot(b, n, r) == r;
      assert S[r] == At(f, stride * Rev(fac, r));
    }
  }
}
