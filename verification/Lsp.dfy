/** Line spectral pairs to prediction coefficients, and Chebyshev series, as in
    lsp.c, over exact reals. */
module Lsp {
  import opened RealSums

  // --------------------------------------------------------- polynomials

  /** p times 1 - 2 x z + z^2. */
  function Section(p: seq<real>, x: real): (q: seq<real>)
    ensures |q| == |p| + 2
  {
    seq(|p| + 2, k => At(p, k) - 2.0 * x * At(p, k - 1) + At(p, k - 2))
  }

  /** p times 1 + s z. */
  function First(p: seq<real>, s: real): (q: seq<real>)
    ensures |q| == |p| + 1
  {
    seq(|p| + 1, k => At(p, k) + s * At(p, k - 1))
  }

  /** The product of the first i sections of every other coefficient, from off. */
  function Product(xf: seq<real>, off: nat, i: nat): (p: seq<real>)
    ensures |p| == 2 * i + 1
  {
    if i == 0 then [1.0] else Section(Product(xf, off, i - 1), At(xf, 2 * (i - 1) + off))
  }

  function SumPoly(xf: seq<real>, m: nat): seq<real> {
    First(Product(xf, 0, m), 1.0)
  }

  function DifferencePoly(xf: seq<real>, m: nat): seq<real> {
    First(Product(xf, 1, m), -1.0)
  }

  /** Coefficient j of half the sum of the two polynomials. */
  function Coefficient(xf: seq<real>, m: nat, j: nat): real {
    (At(SumPoly(xf, m), j) + At(DifferencePoly(xf, m), j)) * 0.5
  }

  // --------------------------------------------------- what they evaluate to

  function Pow(z: real, k: nat): real {
    if k == 0 then 1.0 else Pow(z, k - 1) * z
  }

  /** Term k of p at z. */
  function Term(p: seq<real>, z: real, k: int): real {
    Prod(At(p, k), PowAt(z, k))
  }

  function Prod(a: real, w: real): real {
    a * w
  }

  /** A power of z, 0 for a negative exponent. */
  function PowAt(z: real, k: int): real {
    if k < 0 then 0.0 else Pow(z, k)
  }

  /** The first n terms of p at z. */
  function Eval(p: seq<real>, z: real, n: int): real
    decreases n
  {
    if n <= 0 then 0.0 else Eval(p, z, n - 1) + Term(p, z, n - 1)
  }

  lemma {:induction false} EvalBeyond(p: seq<real>, z: real, n: nat)
    requires n >= |p|
    ensures Eval(p, z, n) == Eval(p, z, |p|)
    decreases n
  {
    if n > |p| {
      EvalBeyond(p, z, n - 1);
    }
  }

  /** 1 - 2 x z + z^2, spread over three values. */
  function Comb(x: real, z: real, a: real, b: real, c: real): real {
    a - 2.0 * x * z * b + z * z * c
  }

  lemma CombAdds(x: real, z: real, a: real, b: real, c: real, a': real, b': real, c': real)
    ensures Comb(x, z, a + a', b + b', c + c') == Comb(x, z, a, b, c) + Comb(x, z, a', b', c')
  {
    Mul(2.0 * x * z, b, b');
    Mul(z * z, c, c');
  }

  lemma Mul(k: real, a: real, b: real)
    ensures k * (a + b) == k * a + k * b
  {
  }

  lemma TermSection(p: seq<real>, x: real, z: real, k: nat)
    ensures Term(Section(p, x), z, k) == Comb(x, z, Term(p, z, k), Term(p, z, k - 1), Term(p, z, k - 2))
  {
    hide *;
    SectionAt(p, x, k);
    Powers(z, k);
    TermIs(p, z, k);
    TermIs(p, z, k - 1);
    TermIs(p, z, k - 2);
    TermIs(Section(p, x), z, k);
    TermsAt(At(Section(p, x), k), At(p, k), At(p, k - 1), At(p, k - 2), x, z, PowAt(z, k - 1), PowAt(z, k), PowAt(z, k - 2));
  }

  lemma SectionAt(p: seq<real>, x: real, k: int)
    ensures At(Section(p, x), k) == At(p, k) - 2.0 * x * At(p, k - 1) + At(p, k - 2)
    ensures k < 1 ==> At(p, k - 1) == 0.0
    ensures k < 2 ==> At(p, k - 2) == 0.0
  {
  }

  lemma Powers(z: real, k: nat)
    ensures k >= 1 ==> PowAt(z, k) == PowAt(z, k - 1) * z
    ensures k >= 2 ==> PowAt(z, k - 1) == PowAt(z, k - 2) * z
  {
  }

  lemma TermIs(p: seq<real>, z: real, k: int)
    ensures Term(p, z, k) == Prod(At(p, k), PowAt(z, k))
  {
  }

  lemma TermsAt(d: real, a: real, b: real, c: real, x: real, z: real, w1: real, w2: real, w0: real)
    requires d == a - 2.0 * x * b + c
    requires (b == 0.0 || w2 == w1 * z) && (c == 0.0 || (w2 == w1 * z && w1 == w0 * z))
    ensures Prod(d, w2) == Comb(x, z, Prod(a, w2), Prod(b, w1), Prod(c, w0))
  {
    assert (a - 2.0 * x * b + c) * w2 == a * w2 - 2.0 * x * b * w2 + c * w2;
    if b != 0.0 {
      assert 2.0 * x * z * (b * w1) == 2.0 * x * b * (w1 * z);
    }
    if c != 0.0 {
      assert z * z * (c * w0) == c * (w0 * z * z);
    }
  }

  /** Multiplying by a section multiplies the value. */
  lemma {:induction false} EvalSection(p: seq<real>, x: real, z: real, n: nat)
    ensures Eval(Section(p, x), z, n) == Comb(x, z, Eval(p, z, n), Eval(p, z, n - 1), Eval(p, z, n - 2))
  {
    hide *;
    if n > 0 {
      var k := n - 1;
      EvalSection(p, x, z, k);
      TermSection(p, x, z, k);
      EvalStep(p, z, n);
      EvalStep(p, z, n - 1);
      EvalStep(p, z, n - 2);
      EvalStep(Section(p, x), z, n);
      CombAdds(x, z, Eval(p, z, k), Eval(p, z, k - 1), Eval(p, z, k - 2), Term(p, z, k), Term(p, z, k - 1), Term(p, z, k - 2));
    } else {
      NoTerms(p, x, z);
    }
  }

  lemma NoTerms(p: seq<real>, x: real, z: real)
    ensures Eval(Section(p, x), z, 0) == Comb(x, z, Eval(p, z, 0), Eval(p, z, -1), Eval(p, z, -2))
  {
  }

  lemma EvalStep(p: seq<real>, z: real, n: int)
    ensures Eval(p, z, n) == Eval(p, z, n - 1) + Term(p, z, n - 1)
  {
  }

  /** 1 + s z, spread over two values. */
  function Pair(s: real, z: real, a: real, b: real): real {
    a + s * z * b
  }

  lemma TermFirst(p: seq<real>, s: real, z: real, k: nat)
    ensures Term(First(p, s), z, k) == Pair(s, z, Term(p, z, k), Term(p, z, k - 1))
  {
    hide *;
    FirstAt(p, s, k);
    Powers(z, k);
    TermIs(p, z, k);
    TermIs(p, z, k - 1);
    TermIs(First(p, s), z, k);
    TwoTerms(At(First(p, s), k), At(p, k), At(p, k - 1), s, z, PowAt(z, k - 1), PowAt(z, k));
  }

  lemma FirstAt(p: seq<real>, s: real, k: int)
    ensures At(First(p, s), k) == At(p, k) + s * At(p, k - 1)
    ensures k < 1 ==> At(p, k - 1) == 0.0
  {
  }

  lemma TwoTerms(d: real, a: real, b: real, s: real, z: real, w0: real, w1: real)
    requires d == a + s * b
    requires b == 0.0 || w1 == w0 * z
    ensures Prod(d, w1) == Pair(s, z, Prod(a, w1), Prod(b, w0))
  {
    assert (a + s * b) * w1 == a * w1 + s * b * w1;
    if b != 0.0 {
      assert s * z * (b * w0) == s * b * (w0 * z);
    }
  }

  lemma {:induction false} EvalFirst(p: seq<real>, s: real, z: real, n: nat)
    ensures Eval(First(p, s), z, n) == Pair(s, z, Eval(p, z, n), Eval(p, z, n - 1))
  {
    hide *;
    if n == 0 {
      EvalNone(p, s, z);
    } else {
      var q, k := First(p, s), n - 1;
      EvalFirst(p, s, z, k);
      TermFirst(p, s, z, k);
      EvalStep(p, z, n);
      EvalStep(p, z, n - 1);
      EvalStep(q, z, n);
      PairAdds(s, z, Eval(p, z, k), Eval(p, z, k - 1), Term(p, z, k), Term(p, z, k - 1));
    }
  }

  lemma EvalNone(p: seq<real>, s: real, z: real)
    ensures Eval(First(p, s), z, 0) == Pair(s, z, Eval(p, z, 0), Eval(p, z, -1))
  {
    hide First;
  }

  lemma PairAdds(s: real, z: real, a: real, b: real, a': real, b': real)
    ensures Pair(s, z, a + a', b + b') == Pair(s, z, a, b) + Pair(s, z, a', b')
  {
    Mul(s * z, b, b');
  }

  /** The product of the factors 1 - 2 x z + z^2 themselves. */
  function Factors(xf: seq<real>, off: nat, i: nat, z: real): real {
    if i == 0 then 1.0 else (1.0 - 2.0 * At(xf, 2 * (i - 1) + off) * z + z * z) * Factors(xf, off, i - 1, z)
  }

  lemma SectionValue(p: seq<real>, x: real, z: real)
    ensures var e := Eval(p, z, |p|); Eval(Section(p, x), z, |p| + 2) == Comb(x, z, e, e, e)
  {
    hide *;
    EvalSection(p, x, z, |p| + 2);
    EvalBeyond(p, z, |p| + 2);
    EvalBeyond(p, z, |p| + 1);
  }

  lemma {:induction false} EvalProduct(xf: seq<real>, off: nat, i: nat, z: real)
    ensures Eval(Product(xf, off, i), z, 2 * i + 1) == Factors(xf, off, i, z)
  {
    hide Eval, Section, Comb, At;
    if i == 0 {
      OneAt(z);
    } else {
      hide *;
      EvalProduct(xf, off, i - 1, z);
      ProductStep(xf, off, i, z);
      SectionValue(Product(xf, off, i - 1), At(xf, 2 * (i - 1) + off), z);
    }
  }

  lemma OneAt(z: real)
    ensures Eval([1.0], z, 1) == 1.0
  {
    assert Pow(z, 0) == 1.0;
  }

  lemma ProductStep(xf: seq<real>, off: nat, i: nat, z: real)
    requires i > 0
    ensures var x, f := At(xf, 2 * (i - 1) + off), Factors(xf, off, i - 1, z);
      && Product(xf, off, i) == Section(Product(xf, off, i - 1), x)
      && |Product(xf, off, i - 1)| == 2 * i - 1
      && Factors(xf, off, i, z) == Comb(x, z, f, f, f)
  {
    FactorsStep(xf, off, i, z);
    hide Section, Comb, Factors, At;
  }

  lemma FactorsStep(xf: seq<real>, off: nat, i: nat, z: real)
    requires i > 0
    ensures var x, f := At(xf, 2 * (i - 1) + off), Factors(xf, off, i - 1, z); Factors(xf, off, i, z) == Comb(x, z, f, f, f)
  {
    hide *;
    var x, f := At(xf, 2 * (i - 1) + off), Factors(xf, off, i - 1, z);
    FactorsIs(xf, off, i, z, x, f);
    FactorOut(x, z, f);
  }

  lemma FactorsIs(xf: seq<real>, off: nat, i: nat, z: real, x: real, f: real)
    requires i > 0 && x == At(xf, 2 * (i - 1) + off) && f == Factors(xf, off, i - 1, z)
    ensures Factors(xf, off, i, z) == (1.0 - 2.0 * x * z + z * z) * f
  {
    hide At;
  }

  lemma FactorOut(x: real, z: real, f: real)
    ensures Comb(x, z, f, f, f) == (1.0 - 2.0 * x * z + z * z) * f
  {
  }

  // ------------------------------------------------------ the coefficients

  /** 1 + a[0] z + a[1] z^2 + ... */
  function Predictor(a: seq<real>): (p: seq<real>)
    ensures |p| == |a| + 1
  {
    [1.0] + a
  }

  ghost predicate Coefficients(xf: seq<real>, m: nat, a: seq<real>) {
    |a| == 2 * m && forall j {:trigger Coefficient(xf, m, j)} :: 1 <= j <= 2 * m ==> a[j - 1] == Coefficient(xf, m, j)
  }

  /** The ends of a product of sections. */
  lemma {:induction false} ProductEnds(xf: seq<real>, off: nat, i: nat)
    ensures Product(xf, off, i)[0] == 1.0 && Product(xf, off, i)[2 * i] == 1.0
  {
    if i > 0 {
      ProductEnds(xf, off, i - 1);
    }
  }

  /** The two polynomials have leading coefficients 1, and opposite last ones. */
  lemma CoefficientEnds(xf: seq<real>, m: nat)
    ensures Coefficient(xf, m, 0) == 1.0 && Coefficient(xf, m, 2 * m + 1) == 0.0
  {
    ProductEnds(xf, 0, m);
    ProductEnds(xf, 1, m);
    hide Product;
  }

  lemma {:induction false} EvalHalf(p: seq<real>, u: seq<real>, v: seq<real>, z: real, n: nat)
    requires forall k :: 0 <= k < n ==> At(p, k) == (At(u, k) + At(v, k)) * 0.5
    ensures Eval(p, z, n) == (Eval(u, z, n) + Eval(v, z, n)) * 0.5
  {
    if n > 0 {
      EvalHalf(p, u, v, z, n - 1);
      HalfTerm(At(p, n - 1), At(u, n - 1), At(v, n - 1), PowAt(z, n - 1));
    }
  }

  lemma HalfTerm(a: real, b: real, c: real, w: real)
    requires a == (b + c) * 0.5
    ensures Prod(a, w) == (Prod(b, w) + Prod(c, w)) * 0.5
  {
  }

  /** The predictor is half the sum of the two products, at every z. */
  lemma PredictorIsHalfSum(xf: seq<real>, m: nat, a: seq<real>, z: real)
    requires Coefficients(xf, m, a)
    ensures Eval(Predictor(a), z, 2 * m + 1)
         == 0.5 * ((1.0 + z) * Factors(xf, 0, m, z) + (1.0 - z) * Factors(xf, 1, m, z))
  {
    var n := 2 * m + 1;
    var u, v, p := SumPoly(xf, m), DifferencePoly(xf, m), Predictor(a);
    CoefficientEnds(xf, m);
    PredictorAt(xf, m, a);
    EvalHalf(p, u, v, z, n + 1);
    EvalBeyond(p, z, n + 1);
    SideEval(xf, 0, m, 1.0, z);
    SideEval(xf, 1, m, -1.0, z);
    hide *;
    HalfSum(Factors(xf, 0, m, z), Factors(xf, 1, m, z), z);
  }

  lemma PredictorAt(xf: seq<real>, m: nat, a: seq<real>)
    requires Coefficients(xf, m, a)
    ensures |Predictor(a)| == 2 * m + 1
    ensures forall k :: 0 <= k < 2 * m + 2 ==> At(Predictor(a), k) == (At(SumPoly(xf, m), k) + At(DifferencePoly(xf, m), k)) * 0.5
  {
    CoefficientEnds(xf, m);
    hide SumPoly, DifferencePoly;
    forall k | 0 <= k < 2 * m + 2
      ensures At(Predictor(a), k) == (At(SumPoly(xf, m), k) + At(DifferencePoly(xf, m), k)) * 0.5
    {
      assert At(Predictor(a), k) == Coefficient(xf, m, k);
    }
  }

  lemma SideEval(xf: seq<real>, off: nat, m: nat, s: real, z: real)
    ensures Eval(First(Product(xf, off, m), s), z, 2 * m + 2) == Pair(s, z, Factors(xf, off, m, z), Factors(xf, off, m, z))
  {
    var p := Product(xf, off, m);
    EvalFirst(p, s, z, 2 * m + 2);
    EvalProduct(xf, off, m, z);
    EvalBeyond(p, z, 2 * m + 2);
  }

  lemma HalfSum(f: real, g: real, z: real)
    ensures (Pair(1.0, z, f, f) + Pair(-1.0, z, g, g)) * 0.5 == 0.5 * ((1.0 + z) * f + (1.0 - z) * g)
  {
  }

  // ------------------------------------------------------------ the cascade

  /** Signal i of one chain at time n: the impulse after i sections. */
  function Stage(xf: seq<real>, off: nat, i: nat, n: int): real {
    At(Product(xf, off, i), n)
  }

  lemma StageStep(xf: seq<real>, off: nat, i: nat, n: int)
    ensures Stage(xf, off, i + 1, n)
         == Stage(xf, off, i, n) - 2.0 * At(xf, 2 * i + off) * Stage(xf, off, i, n - 1) + Stage(xf, off, i, n - 2)
  {
    SectionAt(Product(xf, off, i), At(xf, 2 * i + off), n);
    hide Section;
  }

  /** The memory of section i after it has seen time n. */
  ghost predicate Held(W: seq<real>, xf: seq<real>, i: nat, n: int) {
    4 * i + 3 < |W|
    && W[4 * i] == Stage(xf, 0, i, n) && W[4 * i + 1] == Stage(xf, 0, i, n - 1)
    && W[4 * i + 2] == Stage(xf, 1, i, n) && W[4 * i + 3] == Stage(xf, 1, i, n - 1)
  }

  /** The same of the sections from lo to hi. */
  ghost predicate AllHeld(W: seq<real>, xf: seq<real>, lo: nat, hi: nat, n: int) {
    forall i: nat :: lo <= i < hi ==> Held(W, xf, i, n)
  }

  /** One section, clocked once. */
  method Clock(Wp: array<real>, xf: seq<real>, i: nat, xin1: real, xin2: real, ghost n: int) returns (xout1: real, xout2: real)
    requires 2 * i + 1 < |xf| && Held(Wp[..], xf, i, n - 1) && xin1 == Stage(xf, 0, i, n) && xin2 == Stage(xf, 1, i, n)
    modifies Wp
    ensures Held(Wp[..], xf, i, n) && xout1 == Stage(xf, 0, i + 1, n) && xout2 == Stage(xf, 1, i + 1, n)
    ensures forall k {:trigger Wp[k]} :: 0 <= k < Wp.Length && !(4 * i <= k < 4 * i + 4) ==> Wp[k] == old(Wp[k])
  {
    hide Stage;
    var n1 := 4 * i;
    StageStep(xf, 0, i, n);
    StageStep(xf, 1, i, n);
    xout1 := xin1 - 2.0 * xf[2 * i] * Wp[n1] + Wp[n1 + 1];
    xout2 := xin2 - 2.0 * xf[2 * i + 1] * Wp[n1 + 2] + Wp[n1 + 3];
    Wp[n1 + 1] := Wp[n1];
    Wp[n1 + 3] := Wp[n1 + 2];
    Wp[n1] := xin1;
    Wp[n1 + 2] := xin2;
  }

  /** All sections, clocked once. */
  method ClockAll(Wp: array<real>, xf: seq<real>, m: nat, in1: real, in2: real, ghost n: int) returns (xin1: real, xin2: real)
    requires |xf| == 2 * m && Wp.Length == 4 * m + 2 && in1 == Stage(xf, 0, 0, n) && in2 == Stage(xf, 1, 0, n)
    requires AllHeld(Wp[..], xf, 0, m, n - 1)
    modifies Wp
    ensures AllHeld(Wp[..], xf, 0, m, n)
    ensures Wp[4 * m] == old(Wp[4 * m]) && Wp[4 * m + 1] == old(Wp[4 * m + 1])
    ensures xin1 == Stage(xf, 0, m, n) && xin2 == Stage(xf, 1, m, n)
  {
    hide Stage, Held;
    xin1, xin2 := in1, in2;
    for i := 0 to m
      invariant AllHeld(Wp[..], xf, 0, i, n)
      invariant AllHeld(Wp[..], xf, i, m, n - 1)
      invariant Wp[4 * m] == old(Wp[4 * m]) && Wp[4 * m + 1] == old(Wp[4 * m + 1])
      invariant xin1 == Stage(xf, 0, i, n) && xin2 == Stage(xf, 1, i, n)
    {
      ghost var W := Wp[..];
      xin1, xin2 := Clock(Wp, xf, i, xin1, xin2, n);
      OthersHeld(W, Wp[..], xf, m, i, n);
    }
  }

  lemma OthersHeld(W: seq<real>, W': seq<real>, xf: seq<real>, m: nat, i: nat, n: int)
    requires |W| == |W'| == 4 * m + 2 && i < m && forall k {:trigger W'[k]} :: 0 <= k < |W| && !(4 * i <= k < 4 * i + 4) ==> W'[k] == W[k]
    ensures forall j, t :: 0 <= j < m && j != i && Held(W, xf, j, t) ==> Held(W', xf, j, t)
  {
    hide Stage;
  }

  /** One clock of all sections and of the two ends, and what comes out. */
  method ClockOut(Wp: array<real>, x_freq: seq<real>, m: nat, in1: real, in2: real, ghost j: int) returns (y: real)
    requires |x_freq| == 2 * m && Wp.Length == 4 * m + 2 && in1 == Stage(x_freq, 0, 0, j) && in2 == Stage(x_freq, 1, 0, j) && j >= 0
    requires AllHeld(Wp[..], x_freq, 0, m, j - 1) && Wp[4 * m] == Stage(x_freq, 0, m, j - 1) && Wp[4 * m + 1] == Stage(x_freq, 1, m, j - 1)
    modifies Wp
    ensures y == Coefficient(x_freq, m, j)
    ensures AllHeld(Wp[..], x_freq, 0, m, j) && Wp[4 * m] == Stage(x_freq, 0, m, j) && Wp[4 * m + 1] == Stage(x_freq, 1, m, j)
  {
    hide *;
    var xin1, xin2 := ClockAll(Wp, x_freq, m, in1, in2, j);
    var xout1 := xin1 + Wp[4 * m];
    var xout2 := xin2 - Wp[4 * m + 1];
    Output(x_freq, m, j);
    y := (xout1 + xout2) * 0.5;
    EndsHeld(Wp[..], x_freq, m, j, xin1, xin2);
    Wp[4 * m] := xin1;
    Wp[4 * m + 1] := xin2;
  }

  /** lsp_to_lpc: an impulse through both chains of sections, clock by clock. */
  method LspToLpc(x_freq: seq<real>, ak: array<real>, lpcrdr: nat)
    requires lpcrdr >= 2 && lpcrdr % 2 == 0 && |x_freq| == lpcrdr == ak.Length
    modifies ak
    ensures Coefficients(x_freq, lpcrdr / 2, ak[..])
  {
    hide Stage, Held, AllHeld, Coefficient;
    var m := lpcrdr / 2;
    var Wp := new real[4 * m + 2](_ => 0.0);
    var xin1, xin2 := 1.0, 1.0;
    StartHeld(Wp[..], x_freq, m);
    for j := 0 to lpcrdr + 1
      modifies Wp, ak
      invariant xin1 == Stage(x_freq, 0, 0, j) && xin2 == Stage(x_freq, 1, 0, j)
      invariant AllHeld(Wp[..], x_freq, 0, m, j - 1)
      invariant Wp[4 * m] == Stage(x_freq, 0, m, j - 1) && Wp[4 * m + 1] == Stage(x_freq, 1, m, j - 1)
      invariant forall k {:trigger ak[k]} :: 0 <= k < j - 1 ==> ak[k] == Coefficient(x_freq, m, k + 1)
    {
      var y := ClockOut(Wp, x_freq, m, xin1, xin2, j);
      if j > 0 {
        ak[j - 1] := y;
      }
      xin1, xin2 := 0.0, 0.0;
      AfterImpulse(x_freq, j + 1);
    }
    AllCoefficients(x_freq, m, ak[..]);
  }

  lemma StartHeld(W: seq<real>, xf: seq<real>, m: nat)
    requires |W| == 4 * m + 2 && forall k :: 0 <= k < |W| ==> W[k] == 0.0
    ensures AllHeld(W, xf, 0, m, -1)
    ensures Stage(xf, 0, m, -1) == 0.0 && Stage(xf, 1, m, -1) == 0.0
    ensures Stage(xf, 0, 0, 0) == 1.0 && Stage(xf, 1, 0, 0) == 1.0
  {
  }

  lemma AfterImpulse(xf: seq<real>, n: int)
    requires n > 0
    ensures Stage(xf, 0, 0, n) == 0.0 && Stage(xf, 1, 0, n) == 0.0
  {
  }

  lemma Output(xf: seq<real>, m: nat, j: nat)
    ensures Coefficient(xf, m, j)
         == (Stage(xf, 0, m, j) + Stage(xf, 0, m, j - 1) + (Stage(xf, 1, m, j) - Stage(xf, 1, m, j - 1))) * 0.5
  {
    FirstAt(Product(xf, 0, m), 1.0, j);
    FirstAt(Product(xf, 1, m), -1.0, j);
    hide Product, First;
  }

  lemma EndsHeld(W: seq<real>, xf: seq<real>, m: nat, n: int, a: real, b: real)
    requires |W| == 4 * m + 2 && AllHeld(W, xf, 0, m, n)
    ensures AllHeld(W[4 * m := a][4 * m + 1 := b], xf, 0, m, n)
  {
    hide Stage;
    var W' := W[4 * m := a][4 * m + 1 := b];
    forall i: nat | i < m
      ensures Held(W', xf, i, n)
    {
      assert Held(W, xf, i, n);
    }
  }

  lemma AllCoefficients(xf: seq<real>, m: nat, a: seq<real>)
    requires |a| == 2 * m && forall k {:trigger a[k]} :: 0 <= k < 2 * m ==> a[k] == Coefficient(xf, m, k + 1)
    ensures Coefficients(xf, m, a)
  {
    hide Coefficient;
  }

  // -------------------------------------------------------- Chebyshev series

  /** The Chebyshev polynomials. */
  function T(k: nat, x: real): real {
    if k == 0 then 1.0 else if k == 1 then x else 2.0 * x * T(k - 1, x) - T(k - 2, x)
  }

  /** The terms from k to m of the series with coefficients coef[m], coef[m-1],
      ... */
  function Series(coef: seq<real>, m: nat, k: nat, x: real): real
    decreases m + 1 - k
  {
    if k > m then 0.0 else Series(coef, m, k + 1, x) + At(coef, m - k) * T(k, x)
  }

  /** The backward recurrence. */
  method ChebPolyEva(coef: seq<real>, x0: real, m: nat) returns (sum: real)
    requires |coef| == m + 1
    ensures sum == Series(coef, m, 0, x0)
  {
    hide T;
    var b0, b1 := 0.0, 0.0;
    var x := 2.0 * x0;
    var k := m;
    while k > 0
      invariant 0 <= k <= m
      invariant Series(coef, m, k + 1, x0) == Clenshaw(b0, b1, T(k + 1, x0), T(k, x0))
      decreases k
    {
      var tmp := b0;
      Backward(b0, b1, T(k + 1, x0), T(k, x0), T(k - 1, x0), x0, coef[m - k]);
      TStep(k, x0);
      b0 := x * b0 - b1 + coef[m - k];
      b1 := tmp;
      k := k - 1;
    }
    TStart(x0);
    sum := -b1 + 0.5 * x * b0 + coef[m];
    LastTerm(x0, b0);
  }

  /** What the recurrence holds back. */
  function Clenshaw(b0: real, b1: real, t1: real, t0: real): real {
    b0 * t1 - b1 * t0
  }

  lemma Backward(b0: real, b1: real, t2: real, t1: real, t0: real, x: real, c: real)
    ensures t2 == 2.0 * x * t1 - t0 ==>
      Clenshaw(b0, b1, t2, t1) + c * t1 == Clenshaw(2.0 * x * b0 - b1 + c, b0, t1, t0)
  {
    assert (2.0 * x * b0 - b1 + c) * t1 == 2.0 * x * b0 * t1 - b1 * t1 + c * t1;
    assert b0 * (2.0 * x * t1 - t0) == 2.0 * x * b0 * t1 - b0 * t0;
  }

  lemma TStep(k: nat, x: real)
    requires k > 0
    ensures T(k + 1, x) == 2.0 * x * T(k, x) - T(k - 1, x)
  {
  }

  lemma TStart(x: real)
    ensures T(0, x) == 1.0 && T(1, x) == x
  {
  }

  lemma LastTerm(x: real, b: real)
    ensures 0.5 * (2.0 * x) * b == b * x
  {
  }

  /** The terms below k. */
  function Below(coef: seq<real>, m: nat, k: nat, x: real): real {
    if k == 0 then 0.0 else Below(coef, m, k - 1, x) + At(coef, m - (k - 1)) * T(k - 1, x)
  }

  lemma BelowTwo(coef: seq<real>, m: nat, x: real)
    ensures Below(coef, m, 2, x) == At(coef, m) + At(coef, m - 1) * x
  {
    TStart(x);
    hide T;
    assert Below(coef, m, 0, x) == 0.0;
    assert Below(coef, m, 1, x) == At(coef, m) * T(0, x);
  }

  lemma {:induction false} BelowAndAbove(coef: seq<real>, m: nat, k: nat, x: real)
    requires k <= m + 1
    ensures Below(coef, m, k, x) + Series(coef, m, k, x) == Series(coef, m, 0, x)
  {
    hide T;
    if k > 0 {
      BelowAndAbove(coef, m, k - 1, x);
    }
  }

  /** The forward recurrence of the fixed-point build, over exact reals: the
      same series. */
  method ChebPolyForward(coef: seq<real>, x: real, m: nat) returns (sum: real)
    requires |coef| == m + 1 && m >= 1
    ensures sum == Series(coef, m, 0, x)
  {
    hide T;
    var b1, b0 := 1.0, x;
    TStart(x);
    sum := coef[m] + coef[m - 1] * x;
    BelowTwo(coef, m, x);
    for i := 2 to m + 1
      invariant b0 == T(i - 1, x) && b1 == T(i - 2, x)
      invariant sum == Below(coef, m, i, x)
    {
      var tmp := b0;
      TStep(i - 1, x);
      b0 := 2.0 * x * b0 - b1;
      b1 := tmp;
      sum := sum + coef[m - i] * b0;
    }
    BelowAndAbove(coef, m, m + 1, x);
  }
}
