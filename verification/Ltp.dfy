/** The pitch search and decoding of ltp.c. */
module Ltp {
  import opened IntArith
  import opened RealSums
  import opened FilterSpec
  import opened Filters
  import opened Vq
  import opened CbSpec
  import opened LtpSpec
  import NBest
  import opened BitSeqs
  import opened Bits
  import Fields
  import Innovation

  /** inner_prod: blocks of four, so a rest of len modulo 4 is left out. */
  method InnerProd(x: seq<real>, y: seq<real>, len: nat) returns (sum: real)
    requires len <= |x| && len <= |y|
    ensures sum == Inner(x, y, 0, len / 4 * 4)
  {
    sum := 0.0;
    for k := 0 to len / 4
      invariant sum == Inner(x, y, 0, 4 * k)
    {
      var part := 0.0;
      part := part + x[4 * k] * y[4 * k];
      part := part + x[4 * k + 1] * y[4 * k + 1];
      part := part + x[4 * k + 2] * y[4 * k + 2];
      part := part + x[4 * k + 3] * y[4 * k + 3];
      sum := sum + part;
      InnerStep(x, y, 4 * k);
      InnerStep(x, y, 4 * k + 1);
      InnerStep(x, y, 4 * k + 2);
      InnerStep(x, y, 4 * k + 3);
    }
  }

  lemma InnerStep(x: seq<real>, y: seq<real>, n: nat)
    requires n < |x| && n < |y|
    ensures Inner(x, y, 0, n + 1) == Inner(x, y, 0, n) + x[n] * y[n]
  {
  }

  // ------------------------------------------------ choosing the gains

  /** The correlations compute_pitch_error works from. */
  datatype Corr = Corr(c0: real, c1: real, c2: real, c3: real, c4: real, c5: real, c6: real, c7: real, c8: real)

  function Score(C: Corr, g0: real, g1: real, g2: real): real {
    g0 * 64.0 * C.c0 + g1 * 64.0 * C.c1 + g2 * 64.0 * C.c2
    - g0 * g1 * C.c3 - g2 * g1 * C.c4 - g2 * g0 * C.c5
    - g0 * g0 * C.c6 - g1 * g1 * C.c7 - g2 * g2 * C.c8
  }

  function ScoreAt(C: Corr, cdbk: seq<int>, i: int): real
    requires 0 <= 4 * i && 4 * i + 3 < |cdbk|
  {
    Score(C, cdbk[4 * i] as real + 32.0, cdbk[4 * i + 1] as real + 32.0, cdbk[4 * i + 2] as real + 32.0)
  }

  /** An entry the search may take. */
  predicate Allowed(C: Corr, cdbk: seq<int>, max_gain: int, i: int)
    requires 0 <= 4 * i && 4 * i + 3 < |cdbk|
  {
    cdbk[4 * i + 3] <= max_gain && ScoreAt(C, cdbk, i) > -NBest.VERY_LARGE
  }

  /** pitch_gain_search_3tap_vq: the first entry with the highest score, entry 0
      if there is none. */
  method PitchGainSearch3tapVq(gain_cdbk: seq<int>, gain_cdbk_size: nat, C: Corr, max_gain: int) returns (best_cdbk: nat)
    requires 1 <= gain_cdbk_size && 4 * gain_cdbk_size <= |gain_cdbk|
    ensures best_cdbk < gain_cdbk_size
    ensures forall i :: 0 <= i < gain_cdbk_size && Allowed(C, gain_cdbk, max_gain, i) ==>
      && Allowed(C, gain_cdbk, max_gain, best_cdbk) && ScoreAt(C, gain_cdbk, i) <= ScoreAt(C, gain_cdbk, best_cdbk)
      && (i < best_cdbk ==> ScoreAt(C, gain_cdbk, i) < ScoreAt(C, gain_cdbk, best_cdbk))
    ensures Allowed(C, gain_cdbk, max_gain, best_cdbk) || best_cdbk == 0
  {
    hide Score;
    best_cdbk := 0;
    var best_sum := -NBest.VERY_LARGE;
    ghost var found := false;
    for i := 0 to gain_cdbk_size
      invariant best_cdbk < gain_cdbk_size
      invariant if found then best_cdbk < i && Allowed(C, gain_cdbk, max_gain, best_cdbk) && best_sum == ScoreAt(C, gain_cdbk, best_cdbk)
                else best_cdbk == 0 && best_sum == -NBest.VERY_LARGE
      invariant forall k :: 0 <= k < i && Allowed(C, gain_cdbk, max_gain, k) ==>
        found && ScoreAt(C, gain_cdbk, k) <= best_sum && (k < best_cdbk ==> ScoreAt(C, gain_cdbk, k) < best_sum)
    {
      var sum := Score(C, gain_cdbk[4 * i] as real + 32.0, gain_cdbk[4 * i + 1] as real + 32.0, gain_cdbk[4 * i + 2] as real + 32.0);
      if sum > best_sum && gain_cdbk[4 * i + 3] <= max_gain {
        best_sum := sum;
        best_cdbk := i;
        found := true;
      }
    }
  }

  /** The error a set of gains leaves over the first n samples. */
  function GainError(t: seq<real>, x0: seq<real>, x1: seq<real>, x2: seq<real>, g: Gains, n: nat): real {
    if n == 0 then 0.0
    else
      var d := At(t, n - 1) - (g.g0 * At(x2, n - 1) + g.g1 * At(x1, n - 1) + g.g2 * At(x0, n - 1));
      GainError(t, x0, x1, x2, g, n - 1) + d * d
  }

  /** ... with the loss-robustness penalty on large gains. */
  function Penalised(t: seq<real>, x0: seq<real>, x1: seq<real>, x2: seq<real>, g: Gains, plc: real, n: nat): real {
    GainError(t, x0, x1, x2, g, n) + Penalty(Products3(t, x0, x1, x2, n), g, plc)
  }

  /** A fiftieth of plc times the energy of the scaled signals. */
  function Penalty(P: Corr, g: Gains, plc: real): real {
    0.02 * plc * (g.g0 * g.g0 * P.c6 + g.g1 * g.g1 * P.c7 + g.g2 * g.g2 * P.c8)
  }

  /** All inner products of the target and the three signals. */
  function Products3(t: seq<real>, x0: seq<real>, x1: seq<real>, x2: seq<real>, n: nat): Corr {
    Corr(Inner(x2, t, 0, n), Inner(x1, t, 0, n), Inner(x0, t, 0, n),
         Inner(x2, x1, 0, n), Inner(x1, x0, 0, n), Inner(x2, x0, 0, n),
         Inner(x2, x2, 0, n), Inner(x1, x1, 0, n), Inner(x0, x0, 0, n))
  }

  /** What the search passes on: the energies halved and raised a little. */
  function Correlations(t: seq<real>, x0: seq<real>, x1: seq<real>, x2: seq<real>, plc: real, n: nat): Corr {
    var P := Products3(t, x0, x1, x2, n);
    var w := 0.5 * (1.0 + 0.02 * plc);
    P.(c6 := P.c6 * w, c7 := P.c7 * w, c8 := P.c8 * w)
  }

  /** The square of the residual, multiplied out. */
  function Expanded(tt: real, P: Corr, g: Gains): real {
    tt - 2.0 * (g.g0 * P.c0 + g.g1 * P.c1 + g.g2 * P.c2)
    + 2.0 * (g.g0 * g.g1 * P.c3 + g.g2 * g.g1 * P.c4 + g.g2 * g.g0 * P.c5)
    + g.g0 * g.g0 * P.c6 + g.g1 * g.g1 * P.c7 + g.g2 * g.g2 * P.c8
  }

  /** One sample's products. */
  function Sample(t: real, a: real, b: real, c: real): Corr {
    Corr(c * t, b * t, a * t, c * b, b * a, c * a, c * c, b * b, a * a)
  }

  function Plus(P: Corr, Q: Corr): Corr {
    Corr(P.c0 + Q.c0, P.c1 + Q.c1, P.c2 + Q.c2, P.c3 + Q.c3, P.c4 + Q.c4, P.c5 + Q.c5, P.c6 + Q.c6, P.c7 + Q.c7, P.c8 + Q.c8)
  }

  lemma {:induction false} ErrorExpands(t: seq<real>, x0: seq<real>, x1: seq<real>, x2: seq<real>, g: Gains, n: nat)
    ensures GainError(t, x0, x1, x2, g, n) == Expanded(Inner(t, t, 0, n), Products3(t, x0, x1, x2, n), g)
  {
    if n > 0 {
      hide *;
      var k := n - 1;
      ErrorExpands(t, x0, x1, x2, g, k);
      GainStep(t, x0, x1, x2, g, k);
      ProductsStep(t, x0, x1, x2, k);
      SampleExpands(g, At(t, k), At(x0, k), At(x1, k), At(x2, k));
      ExpandedAdds(g, Inner(t, t, 0, k), Products3(t, x0, x1, x2, k), Squared1(At(t, k)), Sample(At(t, k), At(x0, k), At(x1, k), At(x2, k)));
    }
  }

  function Squared1(d: real): real {
    d * d
  }

  /** What the gains leave of one sample. */
  function LeftAfter(g: Gains, t: real, a: real, b: real, c: real): real {
    t - (g.g0 * c + g.g1 * b + g.g2 * a)
  }

  lemma GainStep(t: seq<real>, x0: seq<real>, x1: seq<real>, x2: seq<real>, g: Gains, k: nat)
    ensures GainError(t, x0, x1, x2, g, k + 1)
         == GainError(t, x0, x1, x2, g, k) + Squared1(LeftAfter(g, At(t, k), At(x0, k), At(x1, k), At(x2, k)))
  {
  }

  lemma ProductsStep(t: seq<real>, x0: seq<real>, x1: seq<real>, x2: seq<real>, k: nat)
    ensures Products3(t, x0, x1, x2, k + 1)
         == Plus(Products3(t, x0, x1, x2, k), Sample(At(t, k), At(x0, k), At(x1, k), At(x2, k)))
    ensures Inner(t, t, 0, k + 1) == Inner(t, t, 0, k) + Squared1(At(t, k))
  {
  }

  lemma Dist(a: real, x: real, y: real)
    ensures a * (x + y) == a * x + a * y
  {
  }

  lemma ExpandedAdds(g: Gains, tt: real, P: Corr, dt: real, Q: Corr)
    ensures Expanded(tt + dt, Plus(P, Q), g) == Expanded(tt, P, g) + Expanded(dt, Q, g)
  {
    Dist(g.g0, P.c0, Q.c0);
    Dist(g.g1, P.c1, Q.c1);
    Dist(g.g2, P.c2, Q.c2);
    Dist(g.g0 * g.g1, P.c3, Q.c3);
    Dist(g.g2 * g.g1, P.c4, Q.c4);
    Dist(g.g2 * g.g0, P.c5, Q.c5);
    Dist(g.g0 * g.g0, P.c6, Q.c6);
    Dist(g.g1 * g.g1, P.c7, Q.c7);
    Dist(g.g2 * g.g2, P.c8, Q.c8);
  }

  lemma SampleExpands(g: Gains, t: real, a: real, b: real, c: real)
    ensures Squared1(LeftAfter(g, t, a, b, c)) == Expanded(Squared1(t), Sample(t, a, b, c), g)
  {
    hide *;
    var p, q, s := RealTimes(g.g0, c), RealTimes(g.g1, b), RealTimes(g.g2, a);
    LeftAfterIs(g, t, a, b, c);
    FourSquared(t, p, q, s);
    Triple(g.g0, c, t);
    Triple(g.g1, b, t);
    Triple(g.g2, a, t);
    Pair(g.g0, c, g.g1, b);
    Pair(g.g2, a, g.g1, b);
    Pair(g.g2, a, g.g0, c);
    Pair(g.g0, c, g.g0, c);
    Pair(g.g1, b, g.g1, b);
    Pair(g.g2, a, g.g2, a);
    Swapped(c, a);
    ExpandedSample(g, t, a, b, c);
  }

  lemma LeftAfterIs(g: Gains, t: real, a: real, b: real, c: real)
    ensures LeftAfter(g, t, a, b, c) == t - (RealTimes(g.g0, c) + RealTimes(g.g1, b) + RealTimes(g.g2, a))
  {
  }

  lemma Swapped(x: real, y: real)
    ensures RealTimes(x, y) == RealTimes(y, x)
  {
  }

  lemma ExpandedSample(g: Gains, t: real, a: real, b: real, c: real)
    ensures Expanded(Squared1(t), Sample(t, a, b, c), g)
         == Squared1(t) - 2.0 * (RealTimes(g.g0, RealTimes(c, t)) + RealTimes(g.g1, RealTimes(b, t)) + RealTimes(g.g2, RealTimes(a, t)))
          + 2.0 * (RealTimes(RealTimes(g.g0, g.g1), RealTimes(c, b)) + RealTimes(RealTimes(g.g2, g.g1), RealTimes(a, b))
                   + RealTimes(RealTimes(g.g2, g.g0), RealTimes(c, a)))
          + RealTimes(RealTimes(g.g0, g.g0), RealTimes(c, c)) + RealTimes(RealTimes(g.g1, g.g1), RealTimes(b, b))
          + RealTimes(RealTimes(g.g2, g.g2), RealTimes(a, a))
  {
  }

  lemma Triple(g: real, x: real, t: real)
    ensures RealTimes(RealTimes(g, x), t) == RealTimes(g, RealTimes(x, t))
  {
  }

  lemma FourSquared(t: real, p: real, q: real, s: real)
    ensures Squared1(t - (p + q + s))
         == Squared1(t) - 2.0 * (RealTimes(p, t) + RealTimes(q, t) + RealTimes(s, t))
          + 2.0 * (RealTimes(p, q) + RealTimes(s, q) + RealTimes(s, p)) + RealTimes(p, p) + RealTimes(q, q) + RealTimes(s, s)
  {
    hide *;
    LessSquared(t, p + q + s);
    PlusSquared(p + q, s);
    PlusSquared(p, q);
    Summed(p + q, s, t);
    Summed(p, q, t);
    Summed(p, q, s);
    Swapped(p, s);
    Swapped(q, s);
  }

  lemma LessSquared(t: real, u: real)
    ensures Squared1(t - u) == Squared1(t) - 2.0 * RealTimes(u, t) + RealTimes(u, u)
  {
  }

  lemma PlusSquared(x: real, y: real)
    ensures RealTimes(x + y, x + y) == RealTimes(x, x) + 2.0 * RealTimes(x, y) + RealTimes(y, y)
  {
  }

  lemma Summed(x: real, y: real, t: real)
    ensures RealTimes(x + y, t) == RealTimes(x, t) + RealTimes(y, t)
  {
  }

  lemma Pair(g: real, x: real, h: real, y: real)
    ensures RealTimes(RealTimes(g, x), RealTimes(h, y)) == RealTimes(RealTimes(g, h), RealTimes(x, y))
  {
  }

  /** The score ranks gains by the penalised error they leave. */
  lemma ScoreIsError(t: seq<real>, x0: seq<real>, x1: seq<real>, x2: seq<real>, g: Gains, plc: real, n: nat)
    ensures Score(Correlations(t, x0, x1, x2, plc, n), 64.0 * g.g0, 64.0 * g.g1, 64.0 * g.g2)
         == 2048.0 * (Inner(t, t, 0, n) - Penalised(t, x0, x1, x2, g, plc, n))
  {
    hide *;
    ErrorExpands(t, x0, x1, x2, g, n);
    var P := Products3(t, x0, x1, x2, n);
    CorrelationsAre(t, x0, x1, x2, plc, n);
    ScoreScales(g, P, Correlations(t, x0, x1, x2, plc, n), Inner(t, t, 0, n), plc);
    PenaltyIs(t, x0, x1, x2, g, plc, n);
  }

  lemma CorrelationsAre(t: seq<real>, x0: seq<real>, x1: seq<real>, x2: seq<real>, plc: real, n: nat)
    ensures Weighted9(Products3(t, x0, x1, x2, n), Correlations(t, x0, x1, x2, plc, n), plc)
  {
    hide Products3;
  }

  predicate Weighted9(P: Corr, C: Corr, plc: real) {
    var w := 0.5 * (1.0 + 0.02 * plc);
    C == P.(c6 := P.c6 * w, c7 := P.c7 * w, c8 := P.c8 * w)
  }

  lemma PenaltyIs(t: seq<real>, x0: seq<real>, x1: seq<real>, x2: seq<real>, g: Gains, plc: real, n: nat)
    ensures Penalised(t, x0, x1, x2, g, plc, n) == GainError(t, x0, x1, x2, g, n) + Penalty(Products3(t, x0, x1, x2, n), g, plc)
  {
    hide GainError, Products3, Penalty;
  }

  lemma ScoreScales(g: Gains, P: Corr, C: Corr, tt: real, plc: real)
    requires Weighted9(P, C, plc)
    ensures Score(C, 64.0 * g.g0, 64.0 * g.g1, 64.0 * g.g2) == 2048.0 * (tt - (Expanded(tt, P, g) + Penalty(P, g, plc)))
  {
    ScaleLinear(g.g0, C.c0);
    ScaleLinear(g.g1, C.c1);
    ScaleLinear(g.g2, C.c2);
    ScaleCross(g.g0, g.g1, C.c3);
    ScaleCross(g.g2, g.g1, C.c4);
    ScaleCross(g.g2, g.g0, C.c5);
    ScaleSquare(g.g0, P.c6, plc, C.c6);
    ScaleSquare(g.g1, P.c7, plc, C.c7);
    ScaleSquare(g.g2, P.c8, plc, C.c8);
    var u0, u1, u2 := g.g0 * g.g0 * P.c6, g.g1 * g.g1 * P.c7, g.g2 * g.g2 * P.c8;
    Dist(0.02 * plc, u0 + u1, u2);
    Dist(0.02 * plc, u0, u1);
  }

  lemma ScaleLinear(g: real, c: real)
    ensures 64.0 * g * 64.0 * c == 4096.0 * (g * c)
  {
  }

  lemma ScaleCross(g: real, h: real, c: real)
    ensures (64.0 * g) * (64.0 * h) * c == 4096.0 * (g * h * c)
  {
    assert (64.0 * g) * (64.0 * h) == 4096.0 * (g * h);
  }

  lemma ScaleSquare(g: real, s: real, plc: real, c: real)
    requires c == s * (0.5 * (1.0 + 0.02 * plc))
    ensures (64.0 * g) * (64.0 * g) * c == 2048.0 * (g * g * s) + 2048.0 * (0.02 * plc * (g * g * s))
  {
    ScaleCross(g, g, c);
    var u, w := g * g, 0.02 * plc;
    assert s * (0.5 * (1.0 + w)) == 0.5 * s + 0.5 * (s * w);
    Dist(u, 0.5 * s, 0.5 * (s * w));
    assert u * (0.5 * s) == 0.5 * (u * s) && u * (0.5 * (s * w)) == 0.5 * (w * (u * s));
  }

  // ------------------------------------------------- the analysis by synthesis

  /** x is r convolved with e. */
  ghost predicate Filtered3(r: seq<real>, e: seq<real>, x: seq<real>) {
    |x| == |e| && forall j :: 0 <= j < |e| ==> x[j] == Conv(Sig(r), e, |e|)(j)
  }

  /** The coefficients of the synthesis filters. */
  datatype Synth = Synth(ak: seq<real>, awk1: seq<real>, awk2: seq<real>)

  /** r is the whole impulse response of f. */
  ghost predicate IsResponse(f: Synth, r: seq<real>) {
    Synthesised(f.ak, f.awk1, f.awk2, Impulse(), Sig(r), |r|)
  }

  /** The synthesis of e from rest. */
  ghost function SynthOf(f: Synth, e: seq<real>): (x: seq<real>)
    ensures |x| == |e|
  {
    RunLength([], f.ak, e);
    RunLength(f.awk1, f.awk2, RunOf([], f.ak, e));
    RunOf(f.awk1, f.awk2, RunOf([], f.ak, e))
  }

  lemma SynthOfSynthesises(f: Synth, e: seq<real>)
    ensures Synthesised(f.ak, f.awk1, f.awk2, Sig(e), Sig(SynthOf(f, e)), |e|)
  {
    hide Memory, Runs, Filtered, Tail;
    var w := RunOf([], f.ak, e);
    RunLength([], f.ak, e);
    RunLength(f.awk1, f.awk2, w);
    RunsFiltered([], f.ak, [], e, w);
    RunsFiltered(f.awk1, f.awk2, [], w, SynthOf(f, e));
    assert Causal(Sig(w));
  }

  lemma SynthIsUnique(f: Synth, e: seq<real>, x: seq<real>)
    requires |x| == |e| && Synthesised(f.ak, f.awk1, f.awk2, Sig(e), Sig(x), |e|)
    ensures x == SynthOf(f, e)
  {
    hide Synthesised, SynthOf, Fir;
    var y := SynthOf(f, e);
    SynthOfSynthesises(f, e);
    SynthesisEquation(f.ak, f.awk1, f.awk2, Sig(e), Sig(x), |e|);
    SynthesisEquation(f.ak, f.awk1, f.awk2, Sig(e), Sig(y), |e|);
    Innovation.CausalSig(x);
    Innovation.CausalSig(y);
    SynthesisUnique(f.ak, f.awk2, Sig(x), Sig(y), |e|);
    forall j | 0 <= j < |e|
      ensures x[j] == y[j]
    {
      assert Sig(x)(j) == Sig(y)(j);
    }
  }

  /** A filtered tap from the next one and the response r: one sample later, with
      e0 in front. */
  function ShiftOf(r: seq<real>, e0: real, next: seq<real>): (x: seq<real>)
    ensures |x| == |r|
  {
    seq(|r|, j => if j == 0 then At(r, 0) * e0 else At(next, j - 1) + At(r, j) * e0)
  }

  /** The filtered taps as the search computes them: tap 2 by filtering, the
      others by shifting. */
  ghost function SearchTap(f: Synth, r: seq<real>, hist: seq<real>, pitch: int, i: nat): (x: seq<real>)
    requires i <= 2
    ensures |x| == |r|
    decreases 2 - i
  {
    if i == 2 then SynthOf(f, Tap(hist, pitch, |r|, 2)) else ShiftOf(r, Past(hist, -pitch - 1 + i), SearchTap(f, r, hist, pitch, i + 1))
  }

  /** Tap 2, filtered sample by sample. */
  method FilterTap2(ak: array<real>, awk1: array<real>, awk2: array<real>, pitch: int, p: nat, nsf: nat, exc2: seq<real>)
    returns (x2: seq<real>)
    requires pitch >= 2 && pitch + 1 <= |exc2| && 1 <= p && ak.Length == awk1.Length == awk2.Length == p
    ensures x2 == SynthOf(Synth(ak[..], awk1[..], awk2[..]), Tap(exc2, pitch, nsf, 2))
  {
    hide Synthesised, Delayed, SynthOf;
    ghost var a0, a1, a2 := ak[..], awk1[..], awk2[..];
    var e := new real[nsf];
    var pp := pitch - 1;
    ghost var tap := Tap(exc2, pitch, nsf, 2);
    for j := 0 to nsf
      invariant e[..j] == tap[..j]
    {
      if j - pp < 0 {
        e[j] := exc2[|exc2| + j - pp];
      } else if j - pp - pitch < 0 {
        e[j] := exc2[|exc2| + j - pp - pitch];
      } else {
        e[j] := 0.0;
      }
      TapAt(exc2, pitch, nsf, 2, j);
      assert e[..j + 1] == tap[..j + 1];
    }
    assert e[..nsf] == tap;
    assert ak[..] == a0 && awk1[..] == a1 && awk2[..] == a2;
    SynPercepZero16(e, ak, awk1, awk2, e, nsf, p);
    x2 := e[..nsf];
    SynthIsUnique(Synth(a0, a1, a2), tap, x2);
  }

  lemma TapAt(hist: seq<real>, pitch: int, nsf: nat, i: int, j: nat)
    requires pitch >= 2 && pitch + 1 <= |hist| && 0 <= i <= 2 && j < nsf
    ensures var d := pitch + 1 - i;
      Tap(hist, pitch, nsf, i)[j] == (if j - d < 0 then hist[|hist| + j - d] else if j - d - pitch < 0 then hist[|hist| + j - d - pitch] else 0.0)
    ensures Tap(hist, pitch, nsf, i)[j] == Delayed(hist, pitch, pitch + 1 - i, j)
  {
  }

  lemma SynthesisIsFiltered3(ak: seq<real>, awk1: seq<real>, awk2: seq<real>, r: seq<real>, e: seq<real>, x: seq<real>)
    requires |x| == |e| == |r|
    requires Synthesised(ak, awk1, awk2, Impulse(), Sig(r), |r|) && Synthesised(ak, awk1, awk2, Sig(e), Sig(x), |r|)
    ensures Filtered3(r, e, x)
  {
    hide Synthesised;
    Innovation.CausalSig(r);
    Innovation.CausalSig(x);
    SynthesisIsConvolution(ak, awk1, awk2, Sig(r), e, Sig(x), |r|);
    hide Conv;
    forall j | 0 <= j < |e|
      ensures x[j] == Conv(Sig(r), e, |e|)(j)
    {
      assert Sig(x)(j) == x[j];
    }
  }

  /** Tap i from tap i + 1, without filtering. */
  method ShiftTap(i: nat, pitch: int, nsf: nat, exc2: seq<real>, r: seq<real>, next: seq<real>) returns (x: seq<real>)
    requires pitch >= 2 && pitch + 1 <= |exc2| && 1 <= nsf == |r| == |next| && i <= 1
    ensures x == ShiftOf(r, Past(exc2, -pitch - 1 + i), next)
  {
    var e0 := exc2[|exc2| - pitch - 1 + i];
    ghost var z := ShiftOf(r, Past(exc2, -pitch - 1 + i), next);
    var y := new real[nsf];
    y[0] := r[0] * e0;
    for j := 0 to nsf - 1
      invariant forall k :: 0 <= k <= j ==> y[k] == z[k]
    {
      y[j + 1] := next[j] + r[j + 1] * e0;
    }
    x := y[..];
  }

  /** Whatever is the next one a sample later is, filtered, its shift. */
  lemma ShiftIsFiltered(r: seq<real>, e: seq<real>, f: seq<real>, next: seq<real>)
    requires |e| == |f| == |r| >= 1 && Filtered3(r, f, next)
    requires forall k :: 0 <= k < |e| - 1 ==> e[k + 1] == f[k]
    ensures Filtered3(r, e, ShiftOf(r, e[0], next))
  {
    var x := ShiftOf(r, e[0], next);
    ConvFirst(r, e);
    hide Conv;
    forall j | 0 <= j < |r|
      ensures x[j] == Conv(Sig(r), e, |e|)(j)
    {
      if j > 0 {
        ConvShifts(r, e, f, j - 1);
      }
    }
  }

  /** When r is the whole response, shifting is filtering. */
  lemma ShiftFiltered(i: nat, pitch: int, exc2: seq<real>, r: seq<real>, next: seq<real>)
    requires pitch >= 2 && 1 <= |r| && i <= 1 && Filtered3(r, Tap(exc2, pitch, |r|, i + 1), next)
    ensures Filtered3(r, Tap(exc2, pitch, |r|, i), ShiftOf(r, Past(exc2, -pitch - 1 + i), next))
  {
    var e, f := Tap(exc2, pitch, |r|, i), Tap(exc2, pitch, |r|, i + 1);
    assert |e| == |f| == |r|;
    hide *;
    TapShifts(exc2, pitch, |r|, i, e, f);
    ShiftIsFiltered(r, e, f, next);
  }

  /** So the search's taps are then the delayed excitations, filtered. */
  lemma TapsFiltered(f: Synth, r: seq<real>, hist: seq<real>, pitch: int)
    requires pitch >= 2 && 1 <= |r| && IsResponse(f, r)
    ensures Taps(r, hist, pitch, |r|, SearchTap(f, r, hist, pitch, 0), SearchTap(f, r, hist, pitch, 1), SearchTap(f, r, hist, pitch, 2))
  {
    hide Filtered3, Synthesised, ShiftOf, Tap, SynthOf;
    var e := Tap(hist, pitch, |r|, 2);
    SynthOfSynthesises(f, e);
    TapLength(hist, pitch, |r|);
    SynthesisIsFiltered3(f.ak, f.awk1, f.awk2, r, e, SynthOf(f, e));
    ShiftFiltered(1, pitch, hist, r, SearchTap(f, r, hist, pitch, 2));
    ShiftFiltered(0, pitch, hist, r, SearchTap(f, r, hist, pitch, 1));
  }

  lemma TapLength(hist: seq<real>, pitch: int, nsf: nat)
    ensures |Tap(hist, pitch, nsf, 2)| == nsf
  {
  }

  /** exc = the pitch excitation, tap by tap, with the wrap past one period. */
  method BuildPitchExc(exc: array<real>, pitch: int, exc2: seq<real>, gain: Gains)
    requires pitch >= 2 && pitch + 1 <= |exc2|
    modifies exc
    ensures exc[..] == PitchExc(exc2, pitch, exc.Length, gain)
  {
    hide Delayed;
    var nsf := exc.Length;
    for j := 0 to nsf
      invariant forall k :: 0 <= k < j ==> exc[k] == 0.0
    {
      exc[j] := 0.0;
    }
    for i := 0 to 3
      invariant forall k :: 0 <= k < nsf ==> exc[k] == TapsSoFar(exc2, pitch, gain, i, k)
    {
      AddTap(exc, pitch, exc2, gain, i);
    }
    assert exc[..] == PitchExc(exc2, pitch, nsf, gain);
  }

  /** The first i taps. */
  function TapsSoFar(hist: seq<real>, pitch: int, g: Gains, i: int, j: int): real {
    (if i > 0 then g.g2 * Delayed(hist, pitch, pitch + 1, j) else 0.0)
    + (if i > 1 then g.g1 * Delayed(hist, pitch, pitch, j) else 0.0)
    + (if i > 2 then g.g0 * Delayed(hist, pitch, pitch - 1, j) else 0.0)
  }

  method AddTap(exc: array<real>, pitch: int, exc2: seq<real>, gain: Gains, i: nat)
    requires pitch >= 2 && pitch + 1 <= |exc2| && i <= 2
    requires forall k :: 0 <= k < exc.Length ==> exc[k] == TapsSoFar(exc2, pitch, gain, i, k)
    modifies exc
    ensures forall k :: 0 <= k < exc.Length ==> exc[k] == TapsSoFar(exc2, pitch, gain, i + 1, k)
  {
    hide Delayed, TapsSoFar;
    var nsf := exc.Length;
    var pp := pitch + 1 - i;
    var g := if i == 0 then gain.g2 else if i == 1 then gain.g1 else gain.g0;
    var tmp1 := nsf;
    if tmp1 > pp {
      tmp1 := pp;
    }
    for j := 0 to tmp1
      invariant forall k :: 0 <= k < j ==> exc[k] == TapsSoFar(exc2, pitch, gain, i + 1, k)
      invariant forall k :: j <= k < nsf ==> exc[k] == TapsSoFar(exc2, pitch, gain, i, k)
    {
      OneTap(exc2, pitch, gain, i, nsf, j);
      exc[j] := exc[j] + g * exc2[|exc2| + j - pp];
    }
    var tmp3 := nsf;
    if tmp3 > pp + pitch {
      tmp3 := pp + pitch;
    }
    for j := tmp1 to tmp3
      invariant forall k :: 0 <= k < j ==> exc[k] == TapsSoFar(exc2, pitch, gain, i + 1, k)
      invariant forall k :: j <= k < nsf ==> exc[k] == TapsSoFar(exc2, pitch, gain, i, k)
    {
      OneTap(exc2, pitch, gain, i, nsf, j);
      exc[j] := exc[j] + g * exc2[|exc2| + j - pp - pitch];
    }
    forall k | tmp3 <= k < nsf
      ensures exc[k] == TapsSoFar(exc2, pitch, gain, i + 1, k)
    {
      OneTap(exc2, pitch, gain, i, nsf, k);
    }
  }

  lemma OneTap(hist: seq<real>, pitch: int, g: Gains, i: nat, nsf: nat, j: nat)
    requires pitch >= 2 && pitch + 1 <= |hist| && i <= 2 && j < nsf
    ensures var d := pitch + 1 - i; var c := if i == 0 then g.g2 else if i == 1 then g.g1 else g.g0;
      var y := if j - d < 0 then hist[|hist| + j - d] else if j - d - pitch < 0 then hist[|hist| + j - d - pitch] else 0.0;
      TapsSoFar(hist, pitch, g, i + 1, j) == TapsSoFar(hist, pitch, g, i, j) + c * y
  {
    TapAt(hist, pitch, nsf, i, j);
    hide Delayed, Past;
  }

  /** The squared error the pitch excitation leaves over the first n samples. */
  function PitchError(target: seq<real>, r: seq<real>, hist: seq<real>, pitch: int, g: Gains, n: nat): real {
    Sum(n, Square(Residual(target, r, PitchExc(hist, pitch, |target|, g))))
  }

  ghost predicate Taps(r: seq<real>, hist: seq<real>, pitch: int, nsf: nat, x0: seq<real>, x1: seq<real>, x2: seq<real>) {
    Filtered3(r, Tap(hist, pitch, nsf, 0), x0) && Filtered3(r, Tap(hist, pitch, nsf, 1), x1) && Filtered3(r, Tap(hist, pitch, nsf, 2), x2)
  }

  lemma ResidualIsLeft(target: seq<real>, r: seq<real>, hist: seq<real>, pitch: int, g: Gains, x0: seq<real>, x1: seq<real>, x2: seq<real>, j: nat)
    requires Taps(r, hist, pitch, |target|, x0, x1, x2) && j < |target|
    ensures |x0| == |x1| == |x2| == |target|
    ensures Residual(target, r, PitchExc(hist, pitch, |target|, g))(j) == LeftAfter(g, target[j], x0[j], x1[j], x2[j])
  {
    hide *;
    PitchConv(hist, pitch, |target|, g, r, j);
    TapsAt(target, r, hist, pitch, x0, x1, x2, j);
    ResidualAt(target, r, PitchExc(hist, pitch, |target|, g), j);
    LeftAfterSum(g, target[j], x0[j], x1[j], x2[j]);
  }

  lemma TapsAt(target: seq<real>, r: seq<real>, hist: seq<real>, pitch: int, x0: seq<real>, x1: seq<real>, x2: seq<real>, j: nat)
    requires Taps(r, hist, pitch, |target|, x0, x1, x2) && j < |target|
    ensures |x0| == |x1| == |x2| == |target| && x0[j] == Conv(Sig(r), Tap(hist, pitch, |target|, 0), |target|)(j)
    ensures x1[j] == Conv(Sig(r), Tap(hist, pitch, |target|, 1), |target|)(j) && x2[j] == Conv(Sig(r), Tap(hist, pitch, |target|, 2), |target|)(j)
  {
    hide Conv, Delayed;
  }

  lemma ResidualAt(target: seq<real>, r: seq<real>, e: seq<real>, j: nat)
    requires j < |target|
    ensures Residual(target, r, e)(j) == target[j] - Conv(Sig(r), e, |e|)(j)
  {
    hide Conv;
  }

  lemma LeftAfterSum(g: Gains, t: real, a: real, b: real, c: real)
    ensures LeftAfter(g, t, a, b, c) == t - (g.g2 * a + g.g1 * b + g.g0 * c)
  {
  }

  lemma {:induction false} GainErrorIs(target: seq<real>, r: seq<real>, hist: seq<real>, pitch: int, g: Gains, x0: seq<real>, x1: seq<real>, x2: seq<real>, n: nat)
    requires Taps(r, hist, pitch, |target|, x0, x1, x2) && n <= |target|
    ensures GainError(target, x0, x1, x2, g, n) == PitchError(target, r, hist, pitch, g, n)
  {
    hide *;
    PitchErrorStep(target, r, hist, pitch, g, n);
    if n > 0 {
      GainErrorIs(target, r, hist, pitch, g, x0, x1, x2, n - 1);
      InTaps(target, r, hist, pitch, x0, x1, x2, n - 1);
      ResidualIsLeft(target, r, hist, pitch, g, x0, x1, x2, n - 1);
      GainStep(target, x0, x1, x2, g, n - 1);
    } else {
      NoGainError(target, x0, x1, x2, g);
    }
  }

  lemma NoGainError(target: seq<real>, x0: seq<real>, x1: seq<real>, x2: seq<real>, g: Gains)
    ensures GainError(target, x0, x1, x2, g, 0) == 0.0
  {
  }

  lemma PitchErrorStep(target: seq<real>, r: seq<real>, hist: seq<real>, pitch: int, g: Gains, n: nat)
    ensures PitchError(target, r, hist, pitch, g, n) == if n == 0 then 0.0 else
      PitchError(target, r, hist, pitch, g, n - 1) + Squared1(Residual(target, r, PitchExc(hist, pitch, |target|, g))(n - 1))
  {
    hide Residual, PitchExc;
  }

  lemma InTaps(target: seq<real>, r: seq<real>, hist: seq<real>, pitch: int, x0: seq<real>, x1: seq<real>, x2: seq<real>, k: nat)
    requires Taps(r, hist, pitch, |target|, x0, x1, x2) && k < |target|
    ensures |x0| == |x1| == |x2| == |target|
    ensures At(target, k) == target[k] && At(x0, k) == x0[k] && At(x1, k) == x1[k] && At(x2, k) == x2[k]
  {
    hide Conv;
  }

  /** What the search makes small for entry i: the error its gains leave of the
      taps and a penalty on their energy. Entry best is allowed and has the
      least of all allowed entries, provided some allowed entry is within reach
      of the initial score. */
  ghost predicate BestOfEntries(target: seq<real>, x0: seq<real>, x1: seq<real>, x2: seq<real>, cdbk: seq<int>, size: nat, plc: real,
                                max_gain: int, best: nat) {
    4 * size <= |cdbk| && best < size && (cdbk[4 * best + 3] <= max_gain || best == 0) &&
      var n := |target| / 4 * 4;
      forall i :: 0 <= i < size && cdbk[4 * i + 3] <= max_gain
               && Penalised(target, x0, x1, x2, GainsAt(cdbk, i), plc, n) < Inner(target, target, 0, n) + NBest.VERY_LARGE / 2048.0
               ==> (cdbk[4 * best + 3] <= max_gain
                    && Penalised(target, x0, x1, x2, GainsAt(cdbk, best), plc, n) <= Penalised(target, x0, x1, x2, GainsAt(cdbk, i), plc, n))
  }

  ghost predicate BestGains(f: Synth, target: seq<real>, r: seq<real>, hist: seq<real>, pitch: int, cdbk: seq<int>, size: nat, plc: real,
                            max_gain: int, best: nat) {
    BestOfEntries(target, SearchTap(f, r, hist, pitch, 0), SearchTap(f, r, hist, pitch, 1), SearchTap(f, r, hist, pitch, 2),
                  cdbk, size, plc, max_gain, best)
  }

  /** The error the search measures over the first n samples. */
  ghost function SearchError(f: Synth, target: seq<real>, r: seq<real>, hist: seq<real>, pitch: int, g: Gains, n: nat): real {
    GainError(target, SearchTap(f, r, hist, pitch, 0), SearchTap(f, r, hist, pitch, 1), SearchTap(f, r, hist, pitch, 2), g, n)
  }

  /** What it leaves of sample j of the target. */
  ghost function SearchLeft(f: Synth, target: seq<real>, r: seq<real>, hist: seq<real>, pitch: int, g: Gains, j: int): real {
    LeftAfter(g, At(target, j), At(SearchTap(f, r, hist, pitch, 0), j), At(SearchTap(f, r, hist, pitch, 1), j), At(SearchTap(f, r, hist, pitch, 2), j))
  }

  /** When r is the whole response, both are those of the excitation itself,
      filtered and taken off the target. */
  lemma SearchIsExact(f: Synth, target: seq<real>, r: seq<real>, hist: seq<real>, pitch: int, g: Gains, n: nat, j: nat)
    requires pitch >= 2 && 1 <= |r| == |target| && IsResponse(f, r) && n <= |target| && j < |target|
    ensures SearchError(f, target, r, hist, pitch, g, n) == PitchError(target, r, hist, pitch, g, n)
    ensures SearchLeft(f, target, r, hist, pitch, g, j) == Residual(target, r, PitchExc(hist, pitch, |target|, g))(j)
  {
    hide Taps, SearchTap, LeftAfter, PitchExc, Residual, GainError, PitchError, IsResponse;
    var x0, x1, x2 := SearchTap(f, r, hist, pitch, 0), SearchTap(f, r, hist, pitch, 1), SearchTap(f, r, hist, pitch, 2);
    TapsFiltered(f, r, hist, pitch);
    GainErrorIs(target, r, hist, pitch, g, x0, x1, x2, n);
    ResidualIsLeft(target, r, hist, pitch, g, x0, x1, x2, j);
  }

  lemma ScoreOfEntry(target: seq<real>, cdbk: seq<int>, i: int, plc: real, x0: seq<real>, x1: seq<real>, x2: seq<real>, n: nat, C: Corr)
    requires n <= |target| && 0 <= i && 4 * i + 3 < |cdbk|
    requires C == Correlations(target, x0, x1, x2, plc, n)
    ensures ScoreAt(C, cdbk, i) == 2048.0 * (Inner(target, target, 0, n) - Penalised(target, x0, x1, x2, GainsAt(cdbk, i), plc, n))
  {
    var g := GainsAt(cdbk, i);
    ScoreIsError(target, x0, x1, x2, g, plc, n);
    EntryGains(cdbk, i);
    hide Score, Penalised, Correlations, Inner;
  }

  lemma EntryGains(cdbk: seq<int>, i: int)
    requires 0 <= i && 4 * i + 3 < |cdbk|
    ensures var g := GainsAt(cdbk, i);
      64.0 * g.g0 == cdbk[4 * i] as real + 32.0 && 64.0 * g.g1 == cdbk[4 * i + 1] as real + 32.0 && 64.0 * g.g2 == cdbk[4 * i + 2] as real + 32.0
  {
  }

  lemma BestIsBest(target: seq<real>, cdbk: seq<int>, size: nat, plc: real, max_gain: int, best: nat,
                   x0: seq<real>, x1: seq<real>, x2: seq<real>, C: Corr)
    requires 4 * size <= |cdbk| && best < size
    requires C == Correlations(target, x0, x1, x2, plc, |target| / 4 * 4)
    requires Allowed(C, cdbk, max_gain, best) || best == 0
    requires forall i :: 0 <= i < size && Allowed(C, cdbk, max_gain, i) ==>
      Allowed(C, cdbk, max_gain, best) && ScoreAt(C, cdbk, i) <= ScoreAt(C, cdbk, best)
    ensures BestOfEntries(target, x0, x1, x2, cdbk, size, plc, max_gain, best)
  {
    var n := |target| / 4 * 4;
    hide ScoreAt, Penalised, Correlations, Inner, GainsAt;
    forall i | 0 <= i < size && cdbk[4 * i + 3] <= max_gain
               && Penalised(target, x0, x1, x2, GainsAt(cdbk, i), plc, n) < Inner(target, target, 0, n) + NBest.VERY_LARGE / 2048.0
      ensures cdbk[4 * best + 3] <= max_gain
           && Penalised(target, x0, x1, x2, GainsAt(cdbk, best), plc, n) <= Penalised(target, x0, x1, x2, GainsAt(cdbk, i), plc, n)
    {
      ScoreOfEntry(target, cdbk, i, plc, x0, x1, x2, n, C);
      ScoreOfEntry(target, cdbk, best, plc, x0, x1, x2, n, C);
      assert Allowed(C, cdbk, max_gain, i);
    }
  }

  /** plc_tuning clamped to 2..30. */
  function PlcTuning(plc_tuning: int): (p: int)
    ensures 2 <= p <= 30
  {
    if plc_tuning < 2 then 2 else if plc_tuning > 30 then 30 else plc_tuning
  }

  function MaxGain(cumul_gain: real): int {
    if cumul_gain > 262144.0 then 31 else 128
  }

  /** The penalty uses the value from 2 to 30 nearest to the tuning asked for. */
  lemma NearestTuning(plc_tuning: int, q: int)
    requires 2 <= q <= 30
    ensures var p := PlcTuning(plc_tuning);
      (if p < plc_tuning then plc_tuning - p else p - plc_tuning) <= (if q < plc_tuning then plc_tuning - q else q - plc_tuning)
  {
  }

  /** A gain table holds signed bytes. */
  ghost predicate SignedBytes(cdbk: seq<int>) {
    forall k :: 0 <= k < |cdbk| ==> -128 <= cdbk[k] <= 127
  }

  /** No entry within reach leaves less penalised error. */
  ghost predicate LeastError(f: Synth, target: seq<real>, r: seq<real>, hist: seq<real>, pitch: int, cdbk: seq<int>, size: nat, plc: real,
                             best: nat) {
    var x0, x1, x2, n := SearchTap(f, r, hist, pitch, 0), SearchTap(f, r, hist, pitch, 1), SearchTap(f, r, hist, pitch, 2), |target| / 4 * 4;
    forall i :: 0 <= i < size && Penalised(target, x0, x1, x2, GainsAt(cdbk, i), plc, n) < Inner(target, target, 0, n) + NBest.VERY_LARGE / 2048.0
             ==> Penalised(target, x0, x1, x2, GainsAt(cdbk, best), plc, n) <= Penalised(target, x0, x1, x2, GainsAt(cdbk, i), plc, n)
  }

  /** Up to a cumulative gain of 262144 no entry is refused: the one chosen has
      the least penalised error of all. Beyond, gain sums above 31 are, and only
      entry 0 may be chosen in spite of its sum. */
  lemma WhatIsRefused(f: Synth, target: seq<real>, r: seq<real>, hist: seq<real>, pitch: int, cdbk: seq<int>, size: nat, plc: real,
                      cumul_gain: real, best: nat)
    requires BestGains(f, target, r, hist, pitch, cdbk, size, plc, MaxGain(cumul_gain), best) && SignedBytes(cdbk)
    ensures cumul_gain <= 262144.0 ==> LeastError(f, target, r, hist, pitch, cdbk, size, plc, best)
    ensures cumul_gain > 262144.0 ==>
      BestGains(f, target, r, hist, pitch, cdbk, size, plc, 31, best) && (cdbk[4 * best + 3] <= 31 || best == 0)
  {
    hide Penalised, Inner, SearchTap, GainsAt;
  }

  /** pitch_gain_search_3tap: the excitation of the best gains for one pitch,
      what the search leaves of the target, and the error it measures: when r is
      the whole impulse response, exactly those of that excitation. */
  method PitchGainSearch3tap(target: seq<real>, ak: array<real>, awk1: array<real>, awk2: array<real>, exc: array<real>,
                             gain_cdbk: seq<int>, gain_cdbk_size: nat, pitch: int, p: nat, exc2: seq<real>, r: seq<real>,
                             new_target: array<real>, plc_tuning: int, cumul_gain: real)
    returns (err: real, cdbk_index: nat)
    requires 1 <= |target| == |r| == exc.Length == new_target.Length && exc != new_target
    requires pitch >= 2 && pitch + 1 <= |exc2| && 1 <= p && ak.Length == awk1.Length == awk2.Length == p
    requires 1 <= gain_cdbk_size && 4 * gain_cdbk_size <= |gain_cdbk|
    modifies exc, new_target
    ensures cdbk_index < gain_cdbk_size && exc[..] == PitchExc(exc2, pitch, |target|, GainsAt(gain_cdbk, cdbk_index))
    ensures var f, g := old(Synth(ak[..], awk1[..], awk2[..])), GainsAt(gain_cdbk, cdbk_index);
      && (forall j :: 0 <= j < |target| ==> new_target[j] == SearchLeft(f, target, r, exc2, pitch, g, j))
      && err == SearchError(f, target, r, exc2, pitch, g, |target| / 4 * 4)
      && BestGains(f, target, r, exc2, pitch, gain_cdbk, gain_cdbk_size, PlcTuning(plc_tuning) as real, MaxGain(cumul_gain), cdbk_index)
    ensures IsResponse(old(Synth(ak[..], awk1[..], awk2[..])), r) ==>
      && (forall j :: 0 <= j < |target| ==> new_target[j] == Residual(target, r, exc[..])(j))
      && err == PitchError(target, r, exc2, pitch, GainsAt(gain_cdbk, cdbk_index), |target| / 4 * 4)
  {
    hide Tap, PitchExc, GainsAt, Correlations, BestOfEntries, PitchError, Residual, ScoreAt, Score, Inner, SynthOf, ShiftOf, GainError, LeftAfter, IsResponse, Past;
    var nsf := |target|;
    ghost var f := Synth(ak[..], awk1[..], awk2[..]);
    var x2 := FilterTap2(ak, awk1, awk2, pitch, p, nsf, exc2);
    var x1 := ShiftTap(1, pitch, nsf, exc2, r, x2);
    var x0 := ShiftTap(0, pitch, nsf, exc2, r, x1);
    assert x2 == SearchTap(f, r, exc2, pitch, 2);
    assert x1 == SearchTap(f, r, exc2, pitch, 1);
    assert x0 == SearchTap(f, r, exc2, pitch, 0);
    hide SearchTap;
    var C := Correlate(target, x0, x1, x2, PlcTuning(plc_tuning) as real);
    cdbk_index := PitchGainSearch3tapVq(gain_cdbk, gain_cdbk_size, C, MaxGain(cumul_gain));
    BestIsBest(target, gain_cdbk, gain_cdbk_size, PlcTuning(plc_tuning) as real, MaxGain(cumul_gain), cdbk_index, x0, x1, x2, C);
    var gain := ReadGains(gain_cdbk, cdbk_index);
    BuildPitchExc(exc, pitch, exc2, gain);
    err := NewTarget(target, gain, x0, x1, x2, new_target);
    if IsResponse(f, r) {
      forall j | 0 <= j < nsf
        ensures new_target[j] == Residual(target, r, exc[..])(j)
      {
        SearchIsExact(f, target, r, exc2, pitch, gain, nsf / 4 * 4, j);
      }
      SearchIsExact(f, target, r, exc2, pitch, gain, nsf / 4 * 4, 0);
    }
  }

  method ReadGains(cdbk: seq<int>, b: nat) returns (gain: Gains)
    requires 4 * b + 3 < |cdbk|
    ensures gain == GainsAt(cdbk, b)
  {
    gain := Gains(0.015625 * cdbk[4 * b] as real + 0.5, 0.015625 * cdbk[4 * b + 1] as real + 0.5, 0.015625 * cdbk[4 * b + 2] as real + 0.5);
  }

  /** The nine numbers of compute_pitch_error. */
  method Correlate(target: seq<real>, x0: seq<real>, x1: seq<real>, x2: seq<real>, plc: real) returns (C: Corr)
    requires |x0| == |x1| == |x2| == |target|
    ensures C == Correlations(target, x0, x1, x2, plc, |target| / 4 * 4)
  {
    hide Inner;
    var nsf := |target|;
    var corr2 := InnerProd(x2, target, nsf);
    var corr1 := InnerProd(x1, target, nsf);
    var corr0 := InnerProd(x0, target, nsf);
    var a21 := InnerProd(x2, x1, nsf);
    var a10 := InnerProd(x1, x0, nsf);
    var a20 := InnerProd(x2, x0, nsf);
    var a22 := InnerProd(x2, x2, nsf);
    var a11 := InnerProd(x1, x1, nsf);
    var a00 := InnerProd(x0, x0, nsf);
    var w := 0.5 * (1.0 + 0.02 * plc);
    C := Corr(corr2, corr1, corr0, a21, a10, a20, a22 * w, a11 * w, a00 * w);
  }

  /** new_target = target less the gains times the taps. */
  method NewTarget(target: seq<real>, gain: Gains, x0: seq<real>, x1: seq<real>, x2: seq<real>, new_target: array<real>)
    returns (err: real)
    requires |x0| == |x1| == |x2| == |target| == new_target.Length
    modifies new_target
    ensures forall j :: 0 <= j < |target| ==> new_target[j] == LeftAfter(gain, At(target, j), At(x0, j), At(x1, j), At(x2, j))
    ensures err == GainError(target, x0, x1, x2, gain, |target| / 4 * 4)
  {
    hide Inner;
    for i := 0 to |target|
      invariant forall j :: 0 <= j < i ==> new_target[j] == LeftAfter(gain, At(target, j), At(x0, j), At(x1, j), At(x2, j))
    {
      var tmp := gain.g0 * x2[i] + gain.g1 * x1[i] + gain.g2 * x0[i];
      new_target[i] := target[i] - tmp;
    }
    err := InnerProd(new_target[..], new_target[..], |target|);
    InnerIsError(new_target[..], target, gain, x0, x1, x2, |target| / 4 * 4);
  }

  lemma {:induction false} InnerIsError(t: seq<real>, target: seq<real>, g: Gains, x0: seq<real>, x1: seq<real>, x2: seq<real>, n: nat)
    requires n <= |t| && forall k :: 0 <= k < n ==> t[k] == LeftAfter(g, At(target, k), At(x0, k), At(x1, k), At(x2, k))
    ensures Inner(t, t, 0, n) == GainError(target, x0, x1, x2, g, n)
  {
    if n > 0 {
      InnerIsError(t, target, g, x0, x1, x2, n - 1);
    }
  }

  // -------------------------------------------------------------- the search

  /** What the search settles for, among candidate pitches. */
  datatype Choice = Choice(pitch: int, index: nat)

  /** The error the search measures for a choice. */
  ghost function ChoiceError(f: Synth, target: seq<real>, r: seq<real>, hist: seq<real>, cdbk: seq<int>, c: Choice): real {
    SearchError(f, target, r, hist, c.pitch, GainsAt(cdbk, c.index), |target| / 4 * 4)
  }

  /** Each candidate pitch with its best gains. */
  ghost predicate Tried(f: Synth, target: seq<real>, r: seq<real>, hist: seq<real>, cdbk: seq<int>, size: nat, plc: int, max_gain: int,
                        nbest: seq<int>, tried: seq<Choice>) {
    |tried| <= |nbest| && forall k :: 0 <= k < |tried| ==>
      tried[k].pitch == nbest[k] && BestGains(f, target, r, hist, nbest[k], cdbk, size, plc as real, max_gain, tried[k].index)
  }

  /** Choice at is the first with the least error. */
  ghost predicate FirstBest(f: Synth, target: seq<real>, r: seq<real>, hist: seq<real>, cdbk: seq<int>, tried: seq<Choice>, at: nat) {
    at < |tried|
    && (forall k :: 0 <= k < |tried| ==> ChoiceError(f, target, r, hist, cdbk, tried[at]) <= ChoiceError(f, target, r, hist, cdbk, tried[k]))
    && (forall k :: 0 <= k < at ==> ChoiceError(f, target, r, hist, cdbk, tried[at]) < ChoiceError(f, target, r, hist, cdbk, tried[k]))
  }

  lemma NextBest(f: Synth, target: seq<real>, r: seq<real>, hist: seq<real>, cdbk: seq<int>, tried: seq<Choice>, at: nat, c: Choice)
    requires FirstBest(f, target, r, hist, cdbk, tried, at)
    ensures if ChoiceError(f, target, r, hist, cdbk, c) < ChoiceError(f, target, r, hist, cdbk, tried[at])
      then FirstBest(f, target, r, hist, cdbk, tried + [c], |tried|) else FirstBest(f, target, r, hist, cdbk, tried + [c], at)
  {
    hide ChoiceError;
  }

  lemma OnlyBest(f: Synth, target: seq<real>, r: seq<real>, hist: seq<real>, cdbk: seq<int>, c: Choice)
    ensures FirstBest(f, target, r, hist, cdbk, [c], 0)
  {
  }

  /** The candidate loop of pitch_search_3tap. */
  method TryPitches(target: seq<real>, ak: array<real>, awk1: array<real>, awk2: array<real>,
                    gain_cdbk: seq<int>, gain_cdbk_size: nat, nbest: seq<int>, p: nat, exc2: seq<real>, r: seq<real>,
                    plc_tuning: int, cumul_gain: real)
    returns (best: Choice, best_exc: seq<real>, best_target: seq<real>, ghost tried: seq<Choice>, ghost at: nat)
    requires 1 <= |target| == |r| && 1 <= |nbest| && forall k :: 0 <= k < |nbest| ==> 2 <= nbest[k] < |exc2|
    requires 1 <= p && ak.Length == awk1.Length == awk2.Length == p && 1 <= gain_cdbk_size && 4 * gain_cdbk_size <= |gain_cdbk|
    ensures var f := Synth(ak[..], awk1[..], awk2[..]);
      && |tried| == |nbest| && Tried(f, target, r, exc2, gain_cdbk, gain_cdbk_size, PlcTuning(plc_tuning), MaxGain(cumul_gain), nbest, tried)
      && FirstBest(f, target, r, exc2, gain_cdbk, tried, at) && best == tried[at]
      && |best_target| == |target|
      && forall j :: 0 <= j < |target| ==> best_target[j] == SearchLeft(f, target, r, exc2, best.pitch, GainsAt(gain_cdbk, best.index), j)
    ensures best.index < gain_cdbk_size && best_exc == PitchExc(exc2, best.pitch, |target|, GainsAt(gain_cdbk, best.index))
  {
    hide PitchExc, GainsAt, BestGains, PitchError, Residual, SearchError, SearchLeft, FirstBest, IsResponse, Synthesised;
    ghost var f := Synth(ak[..], awk1[..], awk2[..]);
    var exc, new_target := new real[|target|], new real[|target|];
    var best_err := -1.0;
    best, best_exc, best_target, tried, at := Choice(0, 0), [], [], [], 0;
    for i := 0 to |nbest|
      modifies exc, new_target
      invariant f == Synth(ak[..], awk1[..], awk2[..])
      invariant |tried| == i && Tried(f, target, r, exc2, gain_cdbk, gain_cdbk_size, PlcTuning(plc_tuning), MaxGain(cumul_gain), nbest, tried)
      invariant i == 0 ==> best_err < 0.0
      invariant i > 0 ==>
        && at < |tried| && FirstBest(f, target, r, exc2, gain_cdbk, tried, at) && best == tried[at]
        && best.index < gain_cdbk_size && best_err == ChoiceError(f, target, r, exc2, gain_cdbk, best) >= 0.0
        && best_exc == PitchExc(exc2, best.pitch, |target|, GainsAt(gain_cdbk, best.index))
        && |best_target| == |target|
        && forall j :: 0 <= j < |target| ==> best_target[j] == SearchLeft(f, target, r, exc2, best.pitch, GainsAt(gain_cdbk, best.index), j)
    {
      var pitch := nbest[i];
      var err, cdbk_index := PitchGainSearch3tap(target, ak, awk1, awk2, exc, gain_cdbk, gain_cdbk_size, pitch, p, exc2, r,
                                                 new_target, plc_tuning, cumul_gain);
      MeasuredNonnegative(f, target, r, exc2, pitch, GainsAt(gain_cdbk, cdbk_index), |target| / 4 * 4);
      ghost var c := Choice(pitch, cdbk_index);
      if i == 0 {
        OnlyBest(f, target, r, exc2, gain_cdbk, c);
        assert [] + [c] == [c];
      } else {
        NextBest(f, target, r, exc2, gain_cdbk, tried, at, c);
      }
      if err < best_err || best_err < 0.0 {
        best_exc := exc[..];
        best_target := new_target[..];
        best_err := err;
        best := Choice(pitch, cdbk_index);
        at := i;
      }
      tried := tried + [c];
    }
  }

  lemma {:induction false} MeasuredNonnegative(f: Synth, target: seq<real>, r: seq<real>, hist: seq<real>, pitch: int, g: Gains, n: nat)
    ensures SearchError(f, target, r, hist, pitch, g, n) >= 0.0
  {
    hide SearchTap;
    if n > 0 {
      MeasuredNonnegative(f, target, r, hist, pitch, g, n - 1);
      var x0, x1, x2 := SearchTap(f, r, hist, pitch, 0), SearchTap(f, r, hist, pitch, 1), SearchTap(f, r, hist, pitch, 2);
      GainStep(target, x0, x1, x2, g, n - 1);
      RealSquare2(LeftAfter(g, At(target, n - 1), At(x0, n - 1), At(x1, n - 1), At(x2, n - 1)));
      hide GainError, LeftAfter;
    }
  }

  lemma RealSquare2(d: real)
    ensures d * d >= 0.0
  {
  }

  /** pitch_search_3tap, given the open-loop candidates: packs the pitch and gain
      index first found with the least error, and leaves in the target what the
      search leaves of it. The value returned is the last candidate tried. */
  method PitchSearch3tap(target: array<real>, ak: array<real>, awk1: array<real>, awk2: array<real>, exc: array<real>,
                         cdbk: seq<int>, gain_bits: nat, pitch_bits: nat, start: int, end: int, nbest: seq<int>, p: nat,
                         bits: SpeexBits, exc2: seq<real>, r: seq<real>, cdbk_offset: nat, plc_tuning: int, cumul_gain: real)
    returns (pitch: int, cumul: real, ghost best: Choice, ghost tried: seq<Choice>, ghost at: nat)
    requires 1 <= target.Length == |r| == exc.Length && target != exc && gain_bits <= 30 && pitch_bits <= 32
    requires 1 <= p && ak.Length == awk1.Length == awk2.Length == p
    requires 2 <= start && end < |exc2| && 4 * Times(Pow2(gain_bits), cdbk_offset + 1) <= |cdbk|
    requires start <= end ==> 1 <= |nbest| && forall k :: 0 <= k < |nbest| ==> start <= nbest[k] <= end
    requires bits.Writing() && bits.owner && bits.chars as object != target && bits.chars as object != exc
    modifies target, exc, bits, bits.chars
    ensures bits.Writing() && (bits.chars == old(bits.chars) || fresh(bits.chars))
    ensures end < start ==>
      && pitch == start && cumul == cumul_gain && target[..] == old(target[..])
      && (forall j :: 0 <= j < exc.Length ==> exc[j] == 0.0)
      && bits.Contents() == old(bits.Contents()) + BitsOf(0, pitch_bits) + BitsOf(0, gain_bits)
    ensures start <= end ==>
      var t, f, table := old(target[..]), old(Synth(ak[..], awk1[..], awk2[..])), Table4(cdbk, Pow2(gain_bits), cdbk_offset);
      && pitch == nbest[|nbest| - 1] && start <= best.pitch <= end && best.index < Pow2(gain_bits)
      && |tried| == |nbest| && Tried(f, t, r, exc2, table, Pow2(gain_bits), PlcTuning(plc_tuning), MaxGain(cumul_gain), nbest, tried)
      && cumul == 0.03125 * (if 1024.0 > cumul_gain then 1024.0 else cumul_gain) * At4(cdbk, best.index)
      && FirstBest(f, t, r, exc2, table, tried, at) && best == tried[at]
      && (Distinct(nbest) ==> (pitch == best.pitch <==> LastBest(f, t, r, exc2, table, tried)))
      && exc[..] == PitchExc(exc2, best.pitch, exc.Length, GainsAt(table, best.index))
      && (forall j :: 0 <= j < target.Length ==> target[j] == SearchLeft(f, t, r, exc2, best.pitch, GainsAt(table, best.index), j))
      && bits.Contents() == old(bits.Contents()) + BitsOf(best.pitch - start, pitch_bits) + BitsOf(best.index, gain_bits)
    ensures start <= end && IsResponse(old(Synth(ak[..], awk1[..], awk2[..])), r) ==>
      forall j :: 0 <= j < target.Length ==> target[j] == Residual(old(target[..]), r, exc[..])(j)
  {
    hide PitchExc, GainsAt, PitchError, Residual, Pow2, BitsOf, BitsIn, Bit, Tried, Table4, SearchLeft, SearchError, FirstBest, LastBest, IsResponse, Distinct;
    best, tried, at := Choice(0, 0), [], 0;
    ghost var f := Synth(ak[..], awk1[..], awk2[..]);
    cumul := cumul_gain;
    if end < start {
      bits.Pack(0, pitch_bits);
      bits.Pack(0, gain_bits);
      Clear(exc);
      return start, cumul, best, tried, at;
    }
    var size := Pow2(gain_bits);
    OneEntry(gain_bits, cdbk_offset);
    var gain_cdbk := Table4(cdbk, size, cdbk_offset);
    var t := target[..];
    var found, best_exc, best_target;
    found, best_exc, best_target, tried, at := TryPitches(t, ak, awk1, awk2, gain_cdbk, size, nbest, p, exc2, r, plc_tuning, cumul_gain);
    best := found;
    TriedPitch(f, t, r, exc2, gain_cdbk, size, PlcTuning(plc_tuning), MaxGain(cumul_gain), nbest, tried, at);
    PackedLast(f, t, r, exc2, gain_cdbk, size, PlcTuning(plc_tuning), MaxGain(cumul_gain), nbest, tried, at);
    if IsResponse(f, r) {
      forall j | 0 <= j < |t|
        ensures best_target[j] == Residual(t, r, best_exc)(j)
      {
        SearchIsExact(f, t, r, exc2, best.pitch, GainsAt(gain_cdbk, best.index), 0, j);
      }
    }
    pitch := nbest[|nbest| - 1];
    cumul := 0.03125 * (if 1024.0 > cumul_gain then 1024.0 else cumul_gain) * At4(cdbk, found.index);
    Commit(bits, found.pitch - start, pitch_bits, found.index, gain_bits, exc, best_exc, target, best_target);
  }

  /** Packs the choice and copies its signals out. */
  method Commit(bits: SpeexBits, lag: int, pitch_bits: nat, index: nat, gain_bits: nat,
                exc: array<real>, e: seq<real>, target: array<real>, t: seq<real>)
    requires bits.Writing() && bits.owner && gain_bits <= 32 && pitch_bits <= 32
    requires |e| == exc.Length && |t| == target.Length && target != exc
    requires bits.chars as object != target && bits.chars as object != exc
    modifies target, exc, bits, bits.chars
    ensures bits.Writing() && (bits.chars == old(bits.chars) || fresh(bits.chars))
    ensures bits.Contents() == old(bits.Contents()) + BitsOf(lag, pitch_bits) + BitsOf(index, gain_bits)
    ensures exc[..] == e && target[..] == t
  {
    hide BitsOf, BitsIn, Bit;
    bits.Pack(lag, pitch_bits);
    bits.Pack(index, gain_bits);
    CopyTo(exc, e);
    CopyTo(target, t);
    assert exc[..] == e;
  }

  /** The part of the gain codebook for one offset. */
  function Table4(cdbk: seq<int>, size: nat, offset: nat): (t: seq<int>)
    requires 4 * Times(size, offset + 1) <= |cdbk|
    ensures |t| == 4 * size
  {
    assert Times(size, offset + 1) == Times(size, offset) + size;
    cdbk[4 * Times(size, offset)..4 * Times(size, offset) + 4 * size]
  }

  /** The gain sum stored with an entry: of the table's first part, whatever
      the offset. */
  function At4(cdbk: seq<int>, index: nat): real {
    if 4 * index + 3 < |cdbk| then cdbk[4 * index + 3] as real else 0.0
  }

  lemma OneEntry(bits: nat, offset: nat)
    ensures 1 <= Pow2(bits) <= Times(Pow2(bits), offset + 1)
  {
  }

  lemma TriedPitch(f: Synth, target: seq<real>, r: seq<real>, hist: seq<real>, cdbk: seq<int>, size: nat, plc: int, max_gain: int,
                   nbest: seq<int>, tried: seq<Choice>, k: nat)
    requires Tried(f, target, r, hist, cdbk, size, plc, max_gain, nbest, tried) && FirstBest(f, target, r, hist, cdbk, tried, k)
    ensures k < |tried| <= |nbest| && tried[k].pitch == nbest[k] && tried[k].index < size
  {
    hide Penalised, ChoiceError;
  }

  ghost predicate Distinct(nbest: seq<int>) {
    forall i, j :: 0 <= i < j < |nbest| ==> nbest[i] != nbest[j]
  }

  /** The last choice has strictly the least error. */
  ghost predicate LastBest(f: Synth, target: seq<real>, r: seq<real>, hist: seq<real>, cdbk: seq<int>, tried: seq<Choice>) {
    tried != [] && forall k :: 0 <= k < |tried| - 1 ==>
      ChoiceError(f, target, r, hist, cdbk, tried[|tried| - 1]) < ChoiceError(f, target, r, hist, cdbk, tried[k])
  }

  /** Of different candidates, the last one tried is the one packed exactly when
      its error is strictly the least. */
  lemma PackedLast(f: Synth, target: seq<real>, r: seq<real>, hist: seq<real>, cdbk: seq<int>, size: nat, plc: int, max_gain: int,
                   nbest: seq<int>, tried: seq<Choice>, at: nat)
    requires Tried(f, target, r, hist, cdbk, size, plc, max_gain, nbest, tried) && |tried| == |nbest|
    requires FirstBest(f, target, r, hist, cdbk, tried, at)
    ensures Distinct(nbest) ==> (nbest[|nbest| - 1] == tried[at].pitch <==> LastBest(f, target, r, hist, cdbk, tried))
  {
    hide ChoiceError, BestGains;
  }

  /** They differ in every search with a silent past, such as the first one an
      encoder makes, whatever the gain table: no candidate changes anything, so
      the first one is packed, and the last one returned. */
  method ReturnedNotPacked(target: array<real>, ak: array<real>, awk1: array<real>, awk2: array<real>, exc: array<real>,
                           cdbk: seq<int>, gain_bits: nat, pitch_bits: nat, start: int, end: int, nbest: seq<int>, p: nat,
                           bits: SpeexBits, exc2: seq<real>, r: seq<real>, cdbk_offset: nat, plc_tuning: int, cumul_gain: real)
    returns (pitch: int, ghost best: Choice)
    requires 1 <= target.Length == |r| == exc.Length && target != exc && gain_bits <= 30 && pitch_bits <= 32
    requires 1 <= p && ak.Length == awk1.Length == awk2.Length == p
    requires 2 <= start && end < |exc2| && 4 * Times(Pow2(gain_bits), cdbk_offset + 1) <= |cdbk|
    requires start <= end && 2 <= |nbest| && Distinct(nbest) && forall k :: 0 <= k < |nbest| ==> start <= nbest[k] <= end
    requires bits.Writing() && bits.owner && bits.chars as object != target && bits.chars as object != exc
    requires Silent(exc2)
    modifies target, exc, bits, bits.chars
    ensures bits.Writing() && best.pitch == nbest[0] != pitch == nbest[|nbest| - 1]
    ensures bits.Contents() == old(bits.Contents()) + BitsOf(nbest[0] - start, pitch_bits) + BitsOf(best.index, gain_bits)
  {
    hide PitchExc, PitchError, Residual, BitsOf, BitsIn, Bit, SearchLeft, SearchError, IsResponse, LastBest, Table4, Tried, FirstBest, Silent, Pow2, Times;
    ghost var f, t := Synth(ak[..], awk1[..], awk2[..]), target[..];
    var cumul;
    ghost var tried, at;
    pitch, cumul, best, tried, at := PitchSearch3tap(target, ak, awk1, awk2, exc, cdbk, gain_bits, pitch_bits, start, end, nbest, p,
      bits, exc2, r, cdbk_offset, plc_tuning, cumul_gain);
    ghost var table := Table4(cdbk, Pow2(gain_bits), cdbk_offset);
    FirstOfSilence(f, t, r, exc2, table, Pow2(gain_bits), PlcTuning(plc_tuning), MaxGain(cumul_gain), nbest, tried, at);
  }

  ghost predicate Silent(x: seq<real>) {
    forall i :: 0 <= i < |x| ==> x[i] == 0.0
  }

  /** A run on silence is silent. */
  lemma {:induction false} SilentRun(num: seq<real>, den: seq<real>, x: seq<real>)
    requires Silent(x)
    ensures Silent(RunOf(num, den, x))
  {
    if x != [] {
      var n := |x| - 1;
      var y := RunOf(num, den, x[..n]);
      SilentRun(num, den, x[..n]);
      RunLength(num, den, x[..n]);
      TailZero(num, Sig(x), n, 0);
      TailZero(den, Sig(y), n, 0);
      assert Memory(num, den, [], x, y, n, 0) == 0.0;
      hide Memory, Tail;
    }
  }

  lemma SilentSynth(f: Synth, e: seq<real>)
    requires Silent(e)
    ensures Silent(SynthOf(f, e))
  {
    hide Silent, RunOf;
    SilentRun([], f.ak, e);
    SilentRun(f.awk1, f.awk2, RunOf([], f.ak, e));
  }

  lemma SilentShift(r: seq<real>, next: seq<real>)
    requires Silent(next)
    ensures Silent(ShiftOf(r, 0.0, next))
  {
    var x := ShiftOf(r, 0.0, next);
    forall j | 0 <= j < |x|
      ensures x[j] == 0.0
    {
      SilentAt(next, j - 1);
      RealTimesZero(At(r, j));
    }
  }

  lemma RealTimesZero(a: real)
    ensures a * 0.0 == 0.0
  {
  }

  lemma SilentPast(hist: seq<real>, pitch: int, nsf: nat, i: int, k: int)
    requires Silent(hist)
    ensures Silent(Tap(hist, pitch, nsf, i)) && Past(hist, k) == 0.0
  {
  }

  /** So no tap of a silent past holds anything. */
  lemma SilentTap(f: Synth, r: seq<real>, hist: seq<real>, pitch: int, i: nat)
    requires Silent(hist) && i <= 2
    ensures Silent(SearchTap(f, r, hist, pitch, i))
    decreases 2 - i
  {
    hide Silent, ShiftOf, Tap, SynthOf, Past;
    SilentPast(hist, pitch, |r|, 2, -pitch - 1 + i);
    if i == 2 {
      SilentSynth(f, Tap(hist, pitch, |r|, 2));
    } else {
      SilentTap(f, r, hist, pitch, i + 1);
      SilentShift(r, SearchTap(f, r, hist, pitch, i + 1));
    }
  }

  /** And the whole target is left, whatever the gains. */
  lemma {:induction false} SilentError(target: seq<real>, x0: seq<real>, x1: seq<real>, x2: seq<real>, g: Gains, n: nat)
    requires Silent(x0) && Silent(x1) && Silent(x2)
    ensures GainError(target, x0, x1, x2, g, n) == Inner(target, target, 0, n)
  {
    if n > 0 {
      SilentError(target, x0, x1, x2, g, n - 1);
      SilentAt(x0, n - 1);
      SilentAt(x1, n - 1);
      SilentAt(x2, n - 1);
      hide At;
    }
  }

  lemma SilentAt(x: seq<real>, i: int)
    requires Silent(x)
    ensures At(x, i) == 0.0
  {
  }

  lemma SilentChoice(f: Synth, target: seq<real>, r: seq<real>, hist: seq<real>, cdbk: seq<int>, c: Choice)
    requires Silent(hist)
    ensures ChoiceError(f, target, r, hist, cdbk, c) == Inner(target, target, 0, |target| / 4 * 4)
  {
    hide Silent, SearchTap, GainError, GainsAt;
    SilentTap(f, r, hist, c.pitch, 0);
    SilentTap(f, r, hist, c.pitch, 1);
    SilentTap(f, r, hist, c.pitch, 2);
    SilentError(target, SearchTap(f, r, hist, c.pitch, 0), SearchTap(f, r, hist, c.pitch, 1), SearchTap(f, r, hist, c.pitch, 2),
      GainsAt(cdbk, c.index), |target| / 4 * 4);
  }

  lemma FirstOfSilence(f: Synth, target: seq<real>, r: seq<real>, hist: seq<real>, cdbk: seq<int>, size: nat, plc: int, max_gain: int,
                       nbest: seq<int>, tried: seq<Choice>, at: nat)
    requires Silent(hist) && |tried| == |nbest| > 0
    requires Tried(f, target, r, hist, cdbk, size, plc, max_gain, nbest, tried) && FirstBest(f, target, r, hist, cdbk, tried, at)
    ensures at == 0 && tried[0].pitch == nbest[0]
  {
    hide ChoiceError, Silent, BestGains;
    SilentChoice(f, target, r, hist, cdbk, tried[0]);
    SilentChoice(f, target, r, hist, cdbk, tried[at]);
  }

  method Clear(a: array<real>)
    modifies a
    ensures forall j :: 0 <= j < a.Length ==> a[j] == 0.0
  {
    for j := 0 to a.Length
      invariant forall k :: 0 <= k < j ==> a[k] == 0.0
    {
      a[j] := 0.0;
    }
  }

  method CopyTo(a: array<real>, s: seq<real>)
    requires |s| == a.Length
    modifies a
    ensures a[..] == s
  {
    for j := 0 to a.Length
      invariant a[..j] == s[..j]
    {
      a[j] := s[j];
    }
  }

  // ------------------------------------------------------------- the decoder

  /** gain_3tap_to_1tap */
  function OneTap3(g: Gains): (s: real)
    ensures s >= 0.0
  {
    (if g.g1 >= 0.0 then g.g1 else -g.g1)
    + (if g.g0 > 0.0 then g.g0 else -0.5 * g.g0)
    + (if g.g2 > 0.0 then g.g2 else -0.5 * g.g2)
  }

  function Magnitude(x: real): real {
    if x < 0.0 then -x else x
  }

  /** One tap stands for three: their magnitudes, negative outer gains counted
      half. */
  lemma OneTapMeans(g: Gains)
    ensures var a, b, c := Magnitude(g.g0), Magnitude(g.g1), Magnitude(g.g2);
      && (g.g0 >= 0.0 && g.g2 >= 0.0 ==> OneTap3(g) == a + b + c)
      && (g.g0 <= 0.0 && g.g2 <= 0.0 ==> 2.0 * OneTap3(g) == a + 2.0 * b + c)
      && OneTap3(g) <= a + b + c <= 2.0 * OneTap3(g)
  {
  }

  ghost predicate NoLouder(x: seq<real>, M: real) {
    forall k :: 0 <= k < |x| ==> -M <= x[k] <= M
  }

  /** The pitch contribution is no louder than the past times the gains. */
  lemma ExcBound(hist: seq<real>, pitch: int, g: Gains, j: int, M: real)
    requires NoLouder(hist, M) && M >= 0.0
    ensures -(Magnitude(g.g0) + Magnitude(g.g1) + Magnitude(g.g2)) * M <= PitchValue(hist, pitch, g, j)
         <= (Magnitude(g.g0) + Magnitude(g.g1) + Magnitude(g.g2)) * M
  {
    hide *;
    var x, y, z := Delayed(hist, pitch, pitch + 1, j), Delayed(hist, pitch, pitch, j), Delayed(hist, pitch, pitch - 1, j);
    DelayedBound(hist, pitch, pitch + 1, j, M);
    DelayedBound(hist, pitch, pitch, j, M);
    DelayedBound(hist, pitch, pitch - 1, j, M);
    ProductBound(g.g2, x, M);
    ProductBound(g.g1, y, M);
    ProductBound(g.g0, z, M);
    ValueIs(hist, pitch, g, j);
    AddUp(Magnitude(g.g0), Magnitude(g.g1), Magnitude(g.g2), M);
  }

  lemma ValueIs(hist: seq<real>, pitch: int, g: Gains, j: int)
    ensures PitchValue(hist, pitch, g, j) == RealTimes(g.g2, Delayed(hist, pitch, pitch + 1, j)) + RealTimes(g.g1, Delayed(hist, pitch, pitch, j))
                                             + RealTimes(g.g0, Delayed(hist, pitch, pitch - 1, j))
  {
    hide Delayed;
  }

  lemma AddUp(a: real, b: real, c: real, M: real)
    ensures (a + b + c) * M == RealTimes(a, M) + RealTimes(b, M) + RealTimes(c, M)
  {
  }

  lemma DelayedBound(hist: seq<real>, pitch: int, d: int, j: int, M: real)
    requires NoLouder(hist, M) && M >= 0.0
    ensures -M <= Delayed(hist, pitch, d, j) <= M
  {
  }

  lemma ProductBound(g: real, x: real, M: real)
    requires -M <= x <= M
    ensures -RealTimes(Magnitude(g), M) <= RealTimes(g, x) <= RealTimes(Magnitude(g), M)
  {
    var a := Magnitude(g);
    assert a * (M - x) >= 0.0 && a * (M + x) >= 0.0;
  }

  /** So after a loss the pitch contribution dies away: gains damped to the cap
      leave at most 0.95 of the loudest sample of the past, or twice that where
      an outer gain is negative. */
  lemma DampedDecays(hist: seq<real>, pitch: int, g: Gains, j: int, M: real)
    requires NoLouder(hist, M) && M >= 0.0 && OneTap3(g) <= 0.95
    ensures var most := RealTimes(if g.g0 >= 0.0 && g.g2 >= 0.0 then 0.95 else 1.9, M);
      -most <= PitchValue(hist, pitch, g, j) <= most
  {
    hide PitchValue, OneTap3, NoLouder, Magnitude;
    OneTapMeans(g);
    ExcBound(hist, pitch, g, j, M);
    var sum := Magnitude(g.g0) + Magnitude(g.g1) + Magnitude(g.g2);
    MoreGain(sum, if g.g0 >= 0.0 && g.g2 >= 0.0 then 0.95 else 1.9, M);
  }

  lemma MoreGain(a: real, b: real, M: real)
    requires a <= b && M >= 0.0
    ensures a * M <= RealTimes(b, M) && -a * M >= -RealTimes(b, M)
  {
    assert (b - a) * M >= 0.0;
  }

  /** The cap is the lesser of 0.95 and the last gain, which counts half from the
      fourth lost frame on. */
  lemma CapMeans(count_lost: nat, last_pitch_gain: real)
    ensures var last := if count_lost <= 3 then last_pitch_gain else last_pitch_gain / 2.0; var c := GainCap(count_lost, last_pitch_gain);
      c <= 0.95 && c <= last && (c == 0.95 || c == last)
  {
  }

  function Scaled(g: Gains, c: real): Gains {
    Gains(c * g.g0, c * g.g1, c * g.g2)
  }

  /** A nonnegative factor scales the one-tap gain. */
  lemma OneTapScales(g: Gains, c: real)
    requires c >= 0.0
    ensures OneTap3(Scaled(g, c)) == c * OneTap3(g)
  {
    SignScales(c, g.g0);
    SignScales(c, g.g1);
    SignScales(c, g.g2);
    var a := if g.g1 >= 0.0 then g.g1 else -g.g1;
    var b := if g.g0 > 0.0 then g.g0 else -0.5 * g.g0;
    var d := if g.g2 > 0.0 then g.g2 else -0.5 * g.g2;
    Dist(c, a + b, d);
    Dist(c, a, b);
  }

  lemma SignScales(c: real, x: real)
    requires c >= 0.0
    ensures (if c * x > 0.0 then c * x else -0.5 * (c * x)) == c * (if x > 0.0 then x else -0.5 * x)
    ensures (if c * x >= 0.0 then c * x else -(c * x)) == c * (if x >= 0.0 then x else -x)
  {
    if x > 0.0 {
      NonnegativeProduct(c, x);
    } else {
      NonnegativeProduct(c, -x);
    }
  }

  lemma NonnegativeProduct(c: real, x: real)
    requires c >= 0.0 && x >= 0.0
    ensures c * x >= 0.0 && c * (-x) == -(c * x)
  {
  }

  /** The highest one-tap gain a decoder allows after count_lost losses. */
  function GainCap(count_lost: nat, last_pitch_gain: real): real {
    var tmp := if count_lost < 4 then last_pitch_gain else 0.5 * last_pitch_gain;
    if tmp > 0.95 then 0.95 else tmp
  }

  /** pitch_unquant_3tap: the pitch excitation of the indices read, which are 0
      where the packet has run out; after a loss the gains are scaled down to the
      cap and never up. */
  method PitchUnquant3tap(exc: seq<real>, exc_out: array<real>, start: int, cdbk: seq<int>, gain_bits: nat, pitch_bits: nat,
                          bits: SpeexBits, count_lost: nat, subframe_offset: int, last_pitch_gain: real, cdbk_offset: nat)
    returns (pitch: int, gain: Gains)
    requires bits.Valid() && pitch_bits <= 32 && gain_bits <= 30
    requires bits.chars as object != exc_out
    requires 2 <= start && start + Pow2(pitch_bits) <= |exc| && 4 * Times(Pow2(gain_bits), cdbk_offset + 1) <= |cdbk|
    requires last_pitch_gain >= 0.0
    modifies exc_out, bits
    ensures bits.Valid() && bits.overflow == (old(bits.overflow) || pitch_bits + gain_bits > |old(Left(bits))|)
    ensures Left(bits) == FieldRest(FieldRest(old(Left(bits)), pitch_bits), gain_bits)
    ensures pitch == start + Field(old(Left(bits)), pitch_bits)
    ensures exc_out[..] == PitchExc(exc, pitch, exc_out.Length, gain)
    ensures var index := Field(FieldRest(old(Left(bits)), pitch_bits), gain_bits);
      var g := GainsAt(Table4(cdbk, Pow2(gain_bits), cdbk_offset), index);
      if count_lost > 0 && pitch > subframe_offset && OneTap3(g) > GainCap(count_lost, last_pitch_gain)
      then OneTap3(gain) == GainCap(count_lost, last_pitch_gain) && exists c :: 0.0 <= c <= 1.0 && gain == Scaled(g, c)
      else gain == g
  {
    hide *;
    var lag, gain_index := ReadLag(bits, pitch_bits, gain_bits);
    pitch := start + lag;
    var g := ReadGains(Table4(cdbk, Pow2(gain_bits), cdbk_offset), gain_index);
    gain := Damp(g, count_lost, pitch, subframe_offset, last_pitch_gain);
    BuildPitchExc(exc_out, pitch, exc, gain);
  }

  /** The two indices. */
  method ReadLag(bits: SpeexBits, pitch_bits: nat, gain_bits: nat) returns (lag: nat, gain_index: nat)
    requires bits.Valid() && pitch_bits <= 32 && gain_bits <= 30
    modifies bits
    ensures bits.Valid() && bits.overflow == (old(bits.overflow) || pitch_bits + gain_bits > |old(Left(bits))|)
    ensures bits.chars == old(bits.chars) && Left(bits) == FieldRest(FieldRest(old(Left(bits)), pitch_bits), gain_bits)
    ensures lag == Field(old(Left(bits)), pitch_bits) && gain_index == Field(FieldRest(old(Left(bits)), pitch_bits), gain_bits)
    ensures lag < Pow2(pitch_bits) && gain_index < Pow2(gain_bits)
  {
    hide *;
    RestLength(Left(bits), pitch_bits);
    lag := ReadField(bits, pitch_bits);
    gain_index := ReadField(bits, gain_bits);
  }

  lemma RestLength(u: seq<bool>, n: nat)
    ensures |FieldRest(u, n)| == if n <= |u| then |u| - n else 0
  {
  }

  /** Scales the gains down after a loss. */
  method Damp(g: Gains, count_lost: nat, pitch: int, subframe_offset: int, last_pitch_gain: real) returns (gain: Gains)
    requires last_pitch_gain >= 0.0
    ensures if count_lost > 0 && pitch > subframe_offset && OneTap3(g) > GainCap(count_lost, last_pitch_gain)
      then OneTap3(gain) == GainCap(count_lost, last_pitch_gain) && exists c :: 0.0 <= c <= 1.0 && gain == Scaled(g, c)
      else gain == g
  {
    hide OneTap3;
    gain := g;
    if count_lost > 0 && pitch > subframe_offset {
      var tmp := if count_lost < 4 then last_pitch_gain else 0.5 * last_pitch_gain;
      if tmp > 0.95 {
        tmp := 0.95;
      }
      var gain_sum := OneTap3(g);
      if gain_sum > tmp {
        var fact := tmp / gain_sum;
        FactorSmall(tmp, gain_sum);
        gain := Gains(fact * g.g0, fact * g.g1, fact * g.g2);
        OneTapScales(g, fact);
        assert gain == Scaled(g, fact);
      }
    }
  }

  lemma FactorSmall(a: real, b: real)
    requires 0.0 <= a < b
    ensures 0.0 <= a / b <= 1.0 && a / b * b == a
  {
    var q := a / b;
    assert q * b == a;
    if q < 0.0 {
      PositiveProduct(-q, b);
    }
    if q > 1.0 {
      PositiveProduct(q - 1.0, b);
    }
  }

  lemma PositiveProduct(x: real, y: real)
    requires x > 0.0 && y > 0.0
    ensures x * y > 0.0
  {
  }

  /** Without losses the decoder rebuilds the encoder's pitch excitation from
      the bits the encoder packed. */
  lemma PitchRoundTrip(start: int, pitch_bits: nat, gain_bits: nat, c: Choice, rest: seq<bool>)
    requires start <= c.pitch < start + Pow2(pitch_bits) && c.index < Pow2(gain_bits)
    ensures var u := BitsOf(c.pitch - start, pitch_bits) + BitsOf(c.index, gain_bits) + rest;
      && start + Field(u, pitch_bits) == c.pitch && Field(FieldRest(u, pitch_bits), gain_bits) == c.index
      && FieldRest(FieldRest(u, pitch_bits), gain_bits) == rest
  {
    hide BitsOf, ValueOf, Pow2;
    var u := BitsOf(c.pitch - start, pitch_bits) + BitsOf(c.index, gain_bits) + rest;
    assert u[..pitch_bits] == BitsOf(c.pitch - start, pitch_bits);
    assert u[pitch_bits..][..gain_bits] == BitsOf(c.index, gain_bits);
    Innovation.ValueBack(c.pitch - start, pitch_bits);
    Innovation.ValueBack(c.index, gain_bits);
  }
}
