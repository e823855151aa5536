/** The three-tap pitch predictor of ltp.c: what its excitation is, and why the
    shift recursion filters it exactly. */
module LtpSpec {
  import opened RealSums
  import opened FilterSpec
  import opened CbSpec

  /** The past excitation k samples before the subframe (k < 0). */
  function Past(hist: seq<real>, k: int): real {
    if k < 0 then At(hist, |hist| + k) else 0.0
  }

  /** The past delayed by d, wrapped once by the pitch period where the delay
      would reach into the subframe itself, and 0 beyond. */
  function Delayed(hist: seq<real>, pitch: int, d: int, j: int): real {
    if j - d < 0 then Past(hist, j - d)
    else if j - d - pitch < 0 then Past(hist, j - d - pitch)
    else 0.0
  }

  /** Tap i has delay pitch + 1 - i. */
  function Tap(hist: seq<real>, pitch: int, nsf: nat, i: int): (e: seq<real>)
    ensures |e| == nsf
  {
    seq(nsf, j => Delayed(hist, pitch, pitch + 1 - i, j))
  }

  /** Three gains, as the codebook stores them: 64 times the gain, less 32. */
  datatype Gains = Gains(g0: real, g1: real, g2: real)

  function GainAt(cdbk: seq<int>, b: int, k: int): real {
    var c := 4 * b + k;
    if 0 <= c < |cdbk| then 0.015625 * cdbk[c] as real + 0.5 else 0.5
  }

  function GainsAt(cdbk: seq<int>, b: int): Gains {
    Gains(GainAt(cdbk, b, 0), GainAt(cdbk, b, 1), GainAt(cdbk, b, 2))
  }

  /** The pitch contribution to the excitation: gain 0 goes with tap 2. */
  function PitchValue(hist: seq<real>, pitch: int, g: Gains, j: int): real {
    g.g2 * Delayed(hist, pitch, pitch + 1, j) + g.g1 * Delayed(hist, pitch, pitch, j) + g.g0 * Delayed(hist, pitch, pitch - 1, j)
  }

  function PitchExc(hist: seq<real>, pitch: int, nsf: nat, g: Gains): (e: seq<real>)
    ensures |e| == nsf
  {
    seq(nsf, j => PitchValue(hist, pitch, g, j))
  }

  /** Each tap is the next one, a sample later, with one more past sample. */
  lemma TapShifts(hist: seq<real>, pitch: int, nsf: nat, i: int, e: seq<real>, f: seq<real>)
    requires pitch >= 2 && 0 <= i <= 1 && nsf >= 1
    requires e == Tap(hist, pitch, nsf, i) && f == Tap(hist, pitch, nsf, i + 1)
    ensures e[0] == Past(hist, -pitch - 1 + i)
    ensures forall k :: 0 <= k < nsf - 1 ==> e[k + 1] == f[k]
  {
    hide Past;
    forall k | 0 <= k < nsf - 1
      ensures e[k + 1] == f[k]
    {
      var d := pitch + 1 - i;
      assert e[k + 1] == Delayed(hist, pitch, d, k + 1) && f[k] == Delayed(hist, pitch, d - 1, k);
      assert k + 1 - d == k - (d - 1) && k + 1 - d - pitch == k - (d - 1) - pitch;
    }
  }

  /** Filtering a shifted signal: the recursion x[i][j+1] = x[i+1][j] + r[j+1] e0. */
  lemma ConvShifts(r: seq<real>, e: seq<real>, f: seq<real>, j: nat)
    requires |e| == |f| >= 1 && j + 1 < |e|
    requires forall k :: 0 <= k < |e| - 1 ==> e[k + 1] == f[k]
    ensures Conv(Sig(r), e, |e|)(j + 1) == Conv(Sig(r), f, |f|)(j) + At(r, j + 1) * e[0]
  {
    hide At;
    var n := |e|;
    var p, q := Products(Sig(r), e, j + 1), Products(Sig(r), f, j);
    AtIn(e, 0);
    forall k | 0 <= k < n - 1
      ensures q(k) == p(1 + k)
    {
      AtIn(e, k + 1);
      AtIn(f, k);
      assert j + 1 - (1 + k) == j - k;
    }
    SumSplit(1, n - 1, p, q);
    SumStep(1, p);
    SumStep(0, p);
    SumStep(n, q);
    BeforeStart(r, j - (n - 1));
    ConvIs(Sig(r), e, n, j + 1);
    ConvIs(Sig(r), f, n, j);
    hide Sum;
  }

  lemma AtIn(e: seq<real>, k: int)
    requires 0 <= k < |e|
    ensures At(e, k) == e[k]
  {
  }

  lemma BeforeStart(r: seq<real>, k: int)
    ensures k < 0 ==> Sig(r)(k) == 0.0
    ensures Sig(r)(k) == At(r, k)
  {
  }

  lemma ConvFirst(r: seq<real>, e: seq<real>)
    requires |e| >= 1
    ensures Conv(Sig(r), e, |e|)(0) == At(r, 0) * e[0]
  {
    var p := Products(Sig(r), e, 0);
    ConvIs(Sig(r), e, |e|, 0);
    var z := (k: int) => p(1 + k);
    forall k | 0 <= k < |e| - 1
      ensures z(k) == 0.0
    {
      BeforeStart(r, 0 - (1 + k));
    }
    AtIn(e, 0);
    BeforeStart(r, 0);
    assert p(0) == e[0] * At(r, 0);
    hide Products, Sig, At, Sum;
    SumSplit(1, |e| - 1, p, z);
    SumZero(|e| - 1, z);
    SumStep(1, p);
    SumStep(0, p);
  }

  /** Convolution is linear: three scaled taps. */
  lemma ConvThree(r: seq<real>, e: seq<real>, a: seq<real>, b: seq<real>, c: seq<real>, g: Gains, n: int)
    requires |e| == |a| == |b| == |c|
    requires forall k :: 0 <= k < |e| ==> e[k] == g.g2 * a[k] + g.g1 * b[k] + g.g0 * c[k]
    ensures Conv(Sig(r), e, |e|)(n)
         == g.g2 * Conv(Sig(r), a, |e|)(n) + g.g1 * Conv(Sig(r), b, |e|)(n) + g.g0 * Conv(Sig(r), c, |e|)(n)
  {
    ConvIs(Sig(r), e, |e|, n);
    ConvIs(Sig(r), a, |e|, n);
    ConvIs(Sig(r), b, |e|, n);
    ConvIs(Sig(r), c, |e|, n);
    hide Conv;
    ThreeSums(|e|, r, e, a, b, c, g, n);
  }

  lemma {:induction false} ThreeSums(m: nat, r: seq<real>, e: seq<real>, a: seq<real>, b: seq<real>, c: seq<real>, g: Gains, n: int)
    requires |e| == |a| == |b| == |c| && m <= |e|
    requires forall k :: 0 <= k < |e| ==> e[k] == g.g2 * a[k] + g.g1 * b[k] + g.g0 * c[k]
    ensures Sum(m, Products(Sig(r), e, n)) == g.g2 * Sum(m, Products(Sig(r), a, n))
         + g.g1 * Sum(m, Products(Sig(r), b, n)) + g.g0 * Sum(m, Products(Sig(r), c, n))
  {
    SumStep(m, Products(Sig(r), e, n));
    SumStep(m, Products(Sig(r), a, n));
    SumStep(m, Products(Sig(r), b, n));
    SumStep(m, Products(Sig(r), c, n));
    if m > 0 {
      ThreeSums(m - 1, r, e, a, b, c, g, n);
      ProductsAt(r, e, a, b, c, n, m - 1);
      var y := Sig(r)(n - (m - 1));
      hide Sum, Products, Sig;
      ThreeTerms(g, a[m - 1], b[m - 1], c[m - 1], y);
      Mac3(g, Sum(m - 1, Products(Sig(r), a, n)), Sum(m - 1, Products(Sig(r), b, n)), Sum(m - 1, Products(Sig(r), c, n)),
           a[m - 1] * y, b[m - 1] * y, c[m - 1] * y);
    }
  }

  lemma ProductsAt(r: seq<real>, e: seq<real>, a: seq<real>, b: seq<real>, c: seq<real>, n: int, k: nat)
    requires |e| == |a| == |b| == |c| && k < |e|
    ensures var y := Sig(r)(n - k);
      && Products(Sig(r), e, n)(k) == e[k] * y && Products(Sig(r), a, n)(k) == a[k] * y
      && Products(Sig(r), b, n)(k) == b[k] * y && Products(Sig(r), c, n)(k) == c[k] * y
  {
  }

  lemma ThreeTerms(g: Gains, a: real, b: real, c: real, y: real)
    ensures (g.g2 * a + g.g1 * b + g.g0 * c) * y == g.g2 * (a * y) + g.g1 * (b * y) + g.g0 * (c * y)
  {
  }

  lemma Mac3(g: Gains, s: real, t: real, u: real, a: real, b: real, c: real)
    ensures g.g2 * (s + a) + g.g1 * (t + b) + g.g0 * (u + c) == g.g2 * s + g.g1 * t + g.g0 * u + (g.g2 * a + g.g1 * b + g.g0 * c)
  {
  }

  /** Filtering the whole pitch excitation is filtering its taps. */
  lemma PitchConv(hist: seq<real>, pitch: int, nsf: nat, g: Gains, r: seq<real>, n: int)
    ensures Conv(Sig(r), PitchExc(hist, pitch, nsf, g), nsf)(n)
         == g.g2 * Conv(Sig(r), Tap(hist, pitch, nsf, 0), nsf)(n) + g.g1 * Conv(Sig(r), Tap(hist, pitch, nsf, 1), nsf)(n)
          + g.g0 * Conv(Sig(r), Tap(hist, pitch, nsf, 2), nsf)(n)
  {
    var e, a, b, c := PitchExc(hist, pitch, nsf, g), Tap(hist, pitch, nsf, 0), Tap(hist, pitch, nsf, 1), Tap(hist, pitch, nsf, 2);
    hide Delayed, Conv;
    ConvThree(r, e, a, b, c, g, n);
  }
}
