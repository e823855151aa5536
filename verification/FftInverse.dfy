/** The sums behind the inverse transform: roots of unity cancel. */
module FftInverse {
  import opened IntArith
  import opened Complex
  import opened Twiddles

  /** The inverse table runs the same angles backwards. */
  ghost predicate Opposite(tw: seq<Cpx>, twi: seq<Cpx>) {
    |twi| == |tw| && forall i :: 0 <= i < |tw| ==> twi[i] == Conj(tw[i])
  }

  lemma OppositeW(tw: seq<Cpx>, twi: seq<Cpx>, inverse: bool, e: int)
    requires ValidTable(tw, inverse) && Opposite(tw, twi)
    ensures W(twi, e) == W(tw, -e)
  {
    hide Mul, Conj, Multiplicative, OnUnitCircle;
    WConj(tw, inverse, e);
    assert twi[e % |tw|] == Conj(tw[e % |tw|]);
  }

  lemma ShiftedSum(n: nat, g: int -> Cpx)
    requires g(n) == g(0)
    ensures Sum(n, k => g(1 + k)) == Sum(n, g)
  {
    SumSplit(1, n, g);
    assert Sum(1 + n, g) == Add(Sum(n, g), g(n));
    assert Sum(1, g) == Add(Sum(0, g), g(0));
  }

  /** The powers of a root other than 1 cancel over a full period. */
  lemma RootsCancel(tw: seq<Cpx>, inverse: bool, d: int)
    requires ValidTable(tw, inverse) && d % |tw| != 0
    ensures Sum(|tw|, k => W(tw, d * k)) == Zero
  {
    var n := |tw|;
    var g := (k: int) => W(tw, d * k);
    var c := W(tw, d);
    WPrimitive(tw, inverse, d);
    hide Mul, W, ValidTable, Sum;
    SumMul(n, g, c);
    forall k | 0 <= k < n
      ensures Mul(g(k), c) == g(1 + k)
    {
      NextPower(tw, inverse, d, k);
    }
    SumExt(n, k => Mul(g(k), c), k => g(1 + k));
    FullTurn(tw, d);
    ShiftedSum(n, g);
    MulLess(Sum(n, g), c);
    NoZeroDivisors(Sub(c, One), Sum(n, g));
    SumExt(n, g, k => W(tw, d * k));
  }

  lemma NextPower(tw: seq<Cpx>, inverse: bool, d: int, k: int)
    requires ValidTable(tw, inverse)
    ensures Mul(W(tw, d * k), W(tw, d)) == W(tw, d * (1 + k))
  {
    hide Mul, W, ValidTable;
    WMul(tw, inverse, d * k, d);
    assert d * k + d == d * (1 + k);
  }

  lemma FullTurn(tw: seq<Cpx>, d: int)
    requires |tw| > 0
    ensures W(tw, d * |tw|) == W(tw, d * 0)
  {
    hide W;
    WShift(tw, 0, d);
    assert d * |tw| == 0 + |tw| * d;
  }

  lemma MulLess(s: Cpx, c: Cpx)
    requires Mul(s, c) == s
    ensures Mul(Sub(c, One), s) == Zero
  {
  }

  lemma RootsAlign(tw: seq<Cpx>, inverse: bool, d: int)
    requires ValidTable(tw, inverse) && d == 0
    ensures Sum(|tw|, k => W(tw, d * k)) == Cpx(|tw| as real, 0.0)
  {
    var g := (k: int) => W(tw, d * k);
    forall k | 0 <= k < |tw|
      ensures g(k) == One
    {
      assert d * k == 0;
    }
    SumOnes(|tw|, g);
    SumExt(|tw|, g, k => W(tw, d * k));
  }

  lemma {:induction false} SumOnes(n: nat, f: int -> Cpx)
    requires forall i :: 0 <= i < n ==> f(i) == One
    ensures Sum(n, f) == Cpx(n as real, 0.0)
  {
    if n != 0 {
      SumOnes(n - 1, f);
    }
  }

  /** What bin k of the spectrum and sample l contribute to output j. */
  function Contribution(tw: seq<Cpx>, x: seq<Cpx>, j: int, k: int, l: int): Cpx {
    Mul(At(x, l), W(tw, (l - j) * k))
  }

  function Table(tw: seq<Cpx>, x: seq<Cpx>, j: int): (int, int) -> Cpx {
    (k, l) => Contribution(tw, x, j, k, l)
  }

  ghost predicate IsSpectrum(tw: seq<Cpx>, x: seq<Cpx>, X: seq<Cpx>) {
    && |x| == |X| == |tw|
    && forall k :: 0 <= k < |X| ==> X[k] == Dft(tw, x, 1, k)
  }

  lemma TableEntry(tw: seq<Cpx>, x: seq<Cpx>, j: int, k: int, l: int)
    ensures Table(tw, x, j)(k, l) == Contribution(tw, x, j, k, l)
  {
  }

  lemma TableRow(tw: seq<Cpx>, x: seq<Cpx>, j: int, n: nat, k: int)
    ensures Rows(n, Table(tw, x, j))(k) == Sum(n, l => Contribution(tw, x, j, k, l))
  {
    hide Contribution, Sum;
    var f, g := (l: int) => Contribution(tw, x, j, k, l), (l: int) => Table(tw, x, j)(k, l);
    forall l | 0 <= l < n
      ensures f(l) == g(l)
    {
      TableEntry(tw, x, j, k, l);
    }
    SumExt(n, f, g);
  }

  lemma TableColumn(tw: seq<Cpx>, x: seq<Cpx>, j: int, n: nat, l: int)
    ensures Columns(n, Table(tw, x, j))(l) == Sum(n, k => Contribution(tw, x, j, k, l))
  {
    hide Contribution, Sum;
    var f, g := (k: int) => Contribution(tw, x, j, k, l), (k: int) => Table(tw, x, j)(k, l);
    forall k | 0 <= k < n
      ensures f(k) == g(k)
    {
      TableEntry(tw, x, j, k, l);
    }
    SumExt(n, f, g);
  }

  lemma SpectrumBin(tw: seq<Cpx>, twi: seq<Cpx>, inverse: bool, x: seq<Cpx>, X: seq<Cpx>, j: int, k: int)
    requires ValidTable(tw, inverse) && Opposite(tw, twi) && IsSpectrum(tw, x, X)
    requires 0 <= k < |X|
    ensures DftPart(twi, X, j, k) == Rows(|tw|, Table(tw, x, j))(k)
  {
    hide *;
    BinTerm(tw, twi, inverse, x, X, j, k);
    TableRow(tw, x, j, |tw|, k);
  }

  lemma SpectrumSizes(tw: seq<Cpx>, twi: seq<Cpx>, x: seq<Cpx>, X: seq<Cpx>)
    requires Opposite(tw, twi) && IsSpectrum(tw, x, X)
    ensures |twi| == |tw| == |x| == |X|
  {
  }

  function TotalByRows(tw: seq<Cpx>, x: seq<Cpx>, j: int): Cpx {
    Sum(|tw|, Rows(|tw|, Table(tw, x, j)))
  }

  ghost predicate BinsMatch(tw: seq<Cpx>, twi: seq<Cpx>, x: seq<Cpx>, X: seq<Cpx>, j: int) {
    forall k | 0 <= k < |twi| :: DftPart(twi, X, j, k) == Rows(|tw|, Table(tw, x, j))(k)
  }

  lemma BinsSum(tw: seq<Cpx>, twi: seq<Cpx>, x: seq<Cpx>, X: seq<Cpx>, j: int)
    requires |twi| == |tw|
    requires BinsMatch(tw, twi, x, X, j)
    ensures Dft(twi, X, 1, j) == TotalByRows(tw, x, j)
  {
    hide Rows, Table, DftPart, Dft, Sum;
    DftSum(twi, X, j, Rows(|tw|, Table(tw, x, j)));
  }

  lemma SpectrumBins(tw: seq<Cpx>, twi: seq<Cpx>, inverse: bool, x: seq<Cpx>, X: seq<Cpx>, j: int)
    requires ValidTable(tw, inverse) && Opposite(tw, twi) && IsSpectrum(tw, x, X)
    ensures BinsMatch(tw, twi, x, X, j)
  {
    hide Rows, Table, DftPart, Dft, Sum, ValidTable, Opposite, IsSpectrum;
    SpectrumSizes(tw, twi, x, X);
    forall k | 0 <= k < |twi|
      ensures DftPart(twi, X, j, k) == Rows(|tw|, Table(tw, x, j))(k)
    {
      SpectrumBin(tw, twi, inverse, x, X, j, k);
    }
  }

  lemma SampleSum(tw: seq<Cpx>, inverse: bool, x: seq<Cpx>, j: int)
    requires ValidTable(tw, inverse) && |x| == |tw| && 0 <= j < |x|
    ensures Sum(|tw|, Columns(|tw|, Table(tw, x, j))) == Scale(x[j], |x| as real)
  {
    hide Mul, W, ValidTable, Dft, Contribution, Sum, At, Add, Scale, Table, Columns;
    var n := |tw|;
    forall l | 0 <= l < n
      ensures Columns(n, Table(tw, x, j))(l) == if l == j then Scale(x[j], n as real) else Zero
    {
      SampleTerm(tw, inverse, x, j, l);
      TableColumn(tw, x, j, n, l);
    }
    SumSingle(n, j, Columns(n, Table(tw, x, j)));
  }

  /** One term of a plain transform. */
  function DftPart(tw: seq<Cpx>, x: seq<Cpx>, k: int, l: int): Cpx {
    Mul(At(x, l), W(tw, l * k))
  }

  lemma DftSum(tw: seq<Cpx>, x: seq<Cpx>, k: int, g: int -> Cpx)
    requires forall l :: 0 <= l < |tw| ==> DftPart(tw, x, k, l) == g(l)
    ensures Dft(tw, x, 1, k) == Sum(|tw|, g)
  {
    hide Mul, W, At;
    forall l | 0 <= l < |tw|
      ensures Mul(At(x, 1 * l), W(tw, l * k)) == g(l)
    {
      assert DftPart(tw, x, k, l) == g(l);
    }
    SumExt(|tw|, l => Mul(At(x, 1 * l), W(tw, l * k)), g);
  }

  lemma BinTerm(tw: seq<Cpx>, twi: seq<Cpx>, inverse: bool, x: seq<Cpx>, X: seq<Cpx>, j: int, k: int)
    requires ValidTable(tw, inverse) && Opposite(tw, twi)
    requires IsSpectrum(tw, x, X) && 0 <= k < |X|
    ensures DftPart(twi, X, j, k) == Sum(|tw|, l => Contribution(tw, x, j, k, l))
  {
    hide Mul, W, ValidTable, Opposite, Dft, Sum, Contribution;
    OppositeW(tw, twi, inverse, k * j);
    assert DftPart(twi, X, j, k) == Mul(X[k], W(tw, -(k * j)));
    BinSum(tw, inverse, x, j, k);
  }

  lemma BinSum(tw: seq<Cpx>, inverse: bool, x: seq<Cpx>, j: int, k: int)
    requires ValidTable(tw, inverse)
    ensures Mul(Dft(tw, x, 1, k), W(tw, -(k * j))) == Sum(|tw|, l => Contribution(tw, x, j, k, l))
  {
    hide Mul, W, ValidTable, Sum, At, Dft, DftPart, Contribution;
    var n := |tw|;
    var w := W(tw, -(k * j));
    var g := (l: int) => DftPart(tw, x, k, l);
    DftSum(tw, x, k, g);
    SumMul(n, g, w);
    forall l | 0 <= l < n
      ensures Mul(g(l), w) == Contribution(tw, x, j, k, l)
    {
      TurnBack(tw, inverse, x, l, j, k);
    }
    SumExt(n, l => Mul(g(l), w), l => Contribution(tw, x, j, k, l));
  }

  lemma TurnBack(tw: seq<Cpx>, inverse: bool, x: seq<Cpx>, l: int, j: int, k: int)
    requires ValidTable(tw, inverse)
    ensures Mul(DftPart(tw, x, k, l), W(tw, -(k * j))) == Contribution(tw, x, j, k, l)
  {
    hide Mul, W, ValidTable, At;
    WMul(tw, inverse, l * k, -(k * j));
    assert l * k - k * j == (l - j) * k;
    MulAssoc(At(x, l), W(tw, l * k), W(tw, -(k * j)));
  }

  lemma SampleTerm(tw: seq<Cpx>, inverse: bool, x: seq<Cpx>, j: int, l: int)
    requires ValidTable(tw, inverse) && |x| == |tw| && 0 <= j < |x| && 0 <= l < |x|
    ensures Sum(|tw|, k => Contribution(tw, x, j, k, l)) == if l == j then Scale(x[j], |x| as real) else Zero
  {
    hide Mul, W, ValidTable;
    var n := |tw|;
    var g := (k: int) => W(tw, (l - j) * k);
    SumMul(n, g, At(x, l));
    forall k | 0 <= k < n
      ensures Mul(g(k), At(x, l)) == Contribution(tw, x, j, k, l)
    {
      MulComm(g(k), At(x, l));
    }
    SumExt(n, k => Mul(g(k), At(x, l)), k => Contribution(tw, x, j, k, l));
    SumExt(n, g, k => W(tw, (l - j) * k));
    if l == j {
      RootsAlign(tw, inverse, l - j);
    } else {
      SmallDifference(l, j, n);
      RootsCancel(tw, inverse, l - j);
    }
    ScaleMul(x[l], n as real);
  }

  lemma SmallDifference(l: int, j: int, n: int)
    requires 0 <= l < n && 0 <= j < n && l != j
    ensures (l - j) % n != 0
  {
    if l > j {
      ModUnique(l - j, n, 0, l - j);
    } else {
      ModUnique(l - j, n, -1, l - j + n);
    }
  }

  lemma ScaleMul(a: Cpx, r: real)
    ensures Mul(Cpx(r, 0.0), a) == Scale(a, r) && Mul(Zero, a) == Zero
  {
  }
}

/** The two transforms of kiss_fft.c in sequence. */
module FftRoundTrip {
  import opened Complex
  import opened Twiddles
  import opened Primes
  import opened KissFft
  import opened FftInverse

  lemma SpectrumSum(tw: seq<Cpx>, twi: seq<Cpx>, inverse: bool, x: seq<Cpx>, X: seq<Cpx>, j: int)
    requires ValidTable(tw, inverse) && Opposite(tw, twi) && IsSpectrum(tw, x, X)
    ensures Dft(twi, X, 1, j) == TotalByRows(tw, x, j)
  {
    hide *;
    SpectrumBins(tw, twi, inverse, x, X, j);
    assert |twi| == |tw| by { SpectrumSizes(tw, twi, x, X); }
    BinsSum(tw, twi, x, X, j);
  }

  /** Plain transforms invert each other up to the factor n. */
  lemma InverseTransform(tw: seq<Cpx>, twi: seq<Cpx>, inverse: bool, x: seq<Cpx>, X: seq<Cpx>, j: int)
    requires ValidTable(tw, inverse) && Opposite(tw, twi) && IsSpectrum(tw, x, X)
    requires 0 <= j < |x|
    ensures Dft(twi, X, 1, j) == Scale(x[j], |x| as real)
  {
    assert |x| == |tw|;
    hide *;
    SpectrumSum(tw, twi, inverse, x, X, j);
    SumSwap(|tw|, |tw|, Table(tw, x, j));
    SampleSum(tw, inverse, x, j);
  }

  /** Running both transforms of kiss_fft.c gives back n times the input. */
  method ThereAndBack(fwd: KissFftState, inv: KissFftState, x: array<Cpx>, X: array<Cpx>, y: array<Cpx>) returns (ok: bool)
    requires fwd.Valid() && inv.Valid() && Opposite(fwd.twiddles, inv.twiddles)
    requires x.Length == X.Length == y.Length == fwd.nfft
    requires x != X && X != y && x != y
    modifies X, y
    ensures ok <==> Smooth(fwd.nfft)
    ensures ok ==> forall j :: 0 <= j < y.Length ==> y[j] == Scale(x[j], fwd.nfft as real)
  {
    hide ValidTable, Dft, Smooth;
    ok := fwd.Stride(x, X, 1);
    if !ok {
      return;
    }
    ok := inv.Stride(X, y, 1);
    forall j | 0 <= j < y.Length
      ensures y[j] == Scale(x[j], fwd.nfft as real)
    {
      InverseTransform(fwd.twiddles, inv.twiddles, fwd.inverse, x[..], X[..], j);
    }
  }
}
