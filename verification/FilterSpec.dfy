/** The short-term filters of filters.c over exact reals: transposed-form
    memories, the difference equations they solve, and the algebra that makes
    the perceptual synthesis and residue filters inverse to each other. */
module FilterSpec {
  import opened RealSums

  type Signal = int -> real

  function Sig(x: seq<real>): Signal {
    i => At(x, i)
  }

  /** c[j] x(i-1) + c[j+1] x(i-2) + ... : what coefficients j and above will
      have contributed by time i. */
  function Tail(c: seq<real>, x: Signal, i: int, j: nat): real
    decreases |c| - j
  {
    if j >= |c| then 0.0 else c[j] * x(i - 1) + Tail(c, x, i - 1, j + 1)
  }

  /** The filter 1 + c[0] z^-1 + c[1] z^-2 + ... applied to x. */
  function Fir(c: seq<real>, x: Signal): Signal {
    i => x(i) + Tail(c, x, i, 0)
  }

  /** f and g are equal before time n. */
  ghost predicate Agree(n: int, f: Signal, g: Signal) {
    forall i :: i < n ==> f(i) == g(i)
  }

  lemma {:induction false} TailCausal(c: seq<real>, f: Signal, g: Signal, i: int, j: nat)
    requires Agree(i, f, g)
    ensures Tail(c, f, i, j) == Tail(c, g, i, j)
    decreases |c| - j
  {
    if j < |c| {
      TailCausal(c, f, g, i - 1, j + 1);
    }
  }

  lemma FirCausal(c: seq<real>, f: Signal, g: Signal, n: int)
    requires Agree(n, f, g)
    ensures Agree(n, Fir(c, f), Fir(c, g))
  {
    forall i | i < n
      ensures Fir(c, f)(i) == Fir(c, g)(i)
    {
      TailCausal(c, f, g, i, 0);
    }
  }

  /** Filters are linear and do not care about delays. */
  lemma {:induction false} TailLinear(c: seq<real>, k: real, f: Signal, s: int, g: Signal, t: int, h: Signal, i: int, j: nat)
    requires forall n :: h(n) == k * f(n - s) + g(n - t)
    ensures Tail(c, h, i, j) == k * Tail(c, f, i - s, j) + Tail(c, g, i - t, j)
    decreases |c| - j
  {
    if j < |c| {
      TailLinear(c, k, f, s, g, t, h, i - 1, j + 1);
      Distribute(c[j], k, f(i - 1 - s), g(i - 1 - t), Tail(c, f, i - 1 - s, j + 1));
    }
  }

  lemma Distribute(c: real, k: real, x: real, y: real, t: real)
    ensures c * (k * x + y) + k * t == k * (c * x + t) + c * y
  {
  }

  function LagSignal(c: seq<real>, x: Signal, j: nat): Signal {
    i => Tail(c, x, i, j)
  }

  lemma TailUnfold(c: seq<real>, x: Signal, i: int, j: nat)
    requires j < |c|
    ensures Tail(c, x, i, j) == c[j] * x(i - 1) + Tail(c, x, i - 1, j + 1)
  {
  }

  lemma LagUnfold(c: seq<real>, x: Signal, j: nat)
    requires j < |c|
    ensures forall n :: LagSignal(c, x, j)(n) == c[j] * x(n - 1) + LagSignal(c, x, j + 1)(n - 1)
  {
  }

  /** The tail of one filter commutes with the other filter. */
  lemma {:induction false} TailCommutes(a: seq<real>, b: seq<real>, x: Signal, i: int, j: nat)
    requires j <= |a|
    ensures Tail(a, LagSignal(b, x, 0), i, j) == Tail(b, LagSignal(a, x, j), i, 0)
    decreases |a| - j
  {
    hide Tail;
    if j < |a| {
      TailUnfold(a, LagSignal(b, x, 0), i, j);
      TailCommutes(a, b, x, i - 1, j + 1);
      LagUnfold(a, x, j);
      TailLinear(b, a[j], x, 1, LagSignal(a, x, j + 1), 1, LagSignal(a, x, j), i, 0);
    } else {
      TailEnd(a, b, x, i);
    }
  }

  lemma TailEnd(a: seq<real>, b: seq<real>, x: Signal, i: int)
    ensures Tail(a, LagSignal(b, x, 0), i, |a|) == Tail(b, LagSignal(a, x, |a|), i, 0)
  {
    TailZero(b, LagSignal(a, x, |a|), i, 0);
  }

  lemma {:induction false} TailZero(c: seq<real>, x: Signal, i: int, j: nat)
    requires forall n :: n < i ==> x(n) == 0.0
    ensures Tail(c, x, i, j) == 0.0
    decreases |c| - j
  {
    if j < |c| {
      TailZero(c, x, i - 1, j + 1);
    }
  }

  /** Filters commute. */
  lemma FirCommutes(a: seq<real>, b: seq<real>, x: Signal, i: int)
    ensures Fir(a, Fir(b, x))(i) == Fir(b, Fir(a, x))(i)
  {
    hide Tail;
    FirTail(a, b, x, i);
    FirTail(b, a, x, i);
    TailCommutes(a, b, x, i, 0);
  }

  lemma FirTail(a: seq<real>, b: seq<real>, x: Signal, i: int)
    ensures Fir(a, Fir(b, x))(i)
         == x(i) + Tail(b, x, i, 0) + Tail(a, x, i, 0) + Tail(a, LagSignal(b, x, 0), i, 0)
  {
    hide *;
    FirParts(b, x);
    TailSum(a, x, LagSignal(b, x, 0), Fir(b, x), i, 0);
    FirIs(a, Fir(b, x), i);
    FirIs(b, x, i);
  }

  lemma {:induction false} TailSum(c: seq<real>, f: Signal, g: Signal, h: Signal, i: int, j: nat)
    requires forall n :: h(n) == f(n) + g(n)
    ensures Tail(c, h, i, j) == Tail(c, f, i, j) + Tail(c, g, i, j)
    decreases |c| - j
  {
    if j < |c| {
      TailSum(c, f, g, h, i - 1, j + 1);
      DistributeSum(c[j], f(i - 1), g(i - 1));
    }
  }

  lemma DistributeSum(a: real, x: real, y: real)
    ensures a * (x + y) == a * x + a * y
  {
  }

  lemma FirIs(c: seq<real>, x: Signal, i: int)
    ensures Fir(c, x)(i) == x(i) + Tail(c, x, i, 0)
  {
    hide Tail;
  }

  lemma FirParts(b: seq<real>, x: Signal)
    ensures forall n :: Fir(b, x)(n) == x(n) + LagSignal(b, x, 0)(n)
  {
    hide Tail;
  }

  /** A filter with leading coefficient 1 can be undone, sample by sample. */
  lemma {:induction false} FirInjective(c: seq<real>, f: Signal, g: Signal, n: int)
    requires Agree(0, f, g) && Agree(n, Fir(c, f), Fir(c, g))
    ensures Agree(n, f, g)
    decreases n
  {
    if n > 0 {
      FirInjective(c, f, g, n - 1);
      TailCausal(c, f, g, n - 1, 0);
      assert Fir(c, f)(n - 1) == Fir(c, g)(n - 1);
    }
  }

  /** y is x filtered by num over den, from rest, up to time n. */
  ghost predicate Filtered(num: seq<real>, den: seq<real>, x: Signal, y: Signal, n: int) {
    Agree(n, Fir(den, y), Fir(num, x))
  }

  ghost predicate Causal(x: Signal) {
    forall i :: i < 0 ==> x(i) == 0.0
  }

  /** Synthesis after residue, as the four difference equations the two
      functions of filters.c solve, gives back the input. */
  lemma SynthesisUndoesResidue(ak: seq<real>, awk1: seq<real>, awk2: seq<real>, n: int,
                               x: Signal, u: Signal, v: Signal, w: Signal, y: Signal)
    requires Causal(x) && Causal(y)
    requires Filtered(ak, awk1, x, u, n)
    requires Filtered(awk2, [], u, v, n)
    requires Filtered([], ak, v, w, n)
    requires Filtered(awk1, awk2, w, y, n)
    ensures Agree(n, y, x)
  {
    hide Tail;
    Agree0(v);
    Agree0(u);
    forall i | i < n
      ensures Fir(ak, Fir(awk2, y))(i) == Fir(ak, Fir(awk2, x))(i)
    {
      RoundTripAt(ak, awk1, awk2, n, x, u, v, w, y, i);
    }
    FirCausalZero(awk2, y);
    FirCausalZero(awk2, x);
    FirInjective(ak, Fir(awk2, y), Fir(awk2, x), n);
    FirInjective(awk2, y, x, n);
  }

  lemma Agree0(x: Signal)
    ensures forall i :: Fir([], x)(i) == x(i)
  {
  }

  lemma FirCausalZero(c: seq<real>, x: Signal)
    requires Causal(x)
    ensures Causal(Fir(c, x))
  {
    forall i | i < 0
      ensures Fir(c, x)(i) == 0.0
    {
      TailZero(c, x, i, 0);
    }
  }

  lemma RoundTripAt(ak: seq<real>, awk1: seq<real>, awk2: seq<real>, n: int,
                    x: Signal, u: Signal, v: Signal, w: Signal, y: Signal, i: int)
    requires Filtered(ak, awk1, x, u, n) && Filtered(awk2, [], u, v, n)
    requires Filtered([], ak, v, w, n) && Filtered(awk1, awk2, w, y, n)
    requires i < n
    ensures Fir(ak, Fir(awk2, y))(i) == Fir(ak, Fir(awk2, x))(i)
  {
    hide Tail;
    Agree0(v);
    calc {
      Fir(ak, Fir(awk2, y))(i);
      { FirCausal(ak, Fir(awk2, y), Fir(awk1, w), n); }
      Fir(ak, Fir(awk1, w))(i);
      { FirCommutes(ak, awk1, w, i); }
      Fir(awk1, Fir(ak, w))(i);
      { Same(awk1, Fir(ak, w), Fir([], v), n, i); Same(awk1, Fir([], v), v, n, i); }
      Fir(awk1, v)(i);
      { Same(awk1, v, Fir([], v), n, i); Same(awk1, Fir([], v), Fir(awk2, u), n, i); }
      Fir(awk1, Fir(awk2, u))(i);
      { FirCommutes(awk1, awk2, u, i); }
      Fir(awk2, Fir(awk1, u))(i);
      { Same(awk2, Fir(awk1, u), Fir(ak, x), n, i); }
      Fir(awk2, Fir(ak, x))(i);
      { FirCommutes(awk2, ak, x, i); }
      Fir(ak, Fir(awk2, x))(i);
    }
  }

  lemma Same(c: seq<real>, f: Signal, g: Signal, n: int, i: int)
    requires Agree(n, f, g) && i < n
    ensures Fir(c, f)(i) == Fir(c, g)(i)
  {
    FirCausal(c, f, g, n);
  }

  // ---------------------------------------------------- impulse responses

  /** The first m terms of r convolved with e. */
  function Conv(r: Signal, e: seq<real>, m: nat): Signal {
    n => Sum(m, k => At(e, k) * r(n - k))
  }

  function Impulse(): Signal {
    i => if i == 0 then 1.0 else 0.0
  }

  lemma ConvStep(r: Signal, e: seq<real>, m: nat)
    requires m > 0
    ensures forall n :: Conv(r, e, m)(n) == At(e, m - 1) * r(n - (m - 1)) + Conv(r, e, m - 1)(n - 0)
  {
    forall n
      ensures Conv(r, e, m)(n) == At(e, m - 1) * r(n - (m - 1)) + Conv(r, e, m - 1)(n - 0)
    {
      var f := (k: int) => At(e, k) * r(n - k);
      SumExt(m, f, k => At(e, k) * r(n - k));
      SumExt(m - 1, f, k => At(e, k) * r(n - 0 - k));
    }
  }

  /** Filtering a convolution is convolving with the filtered response. */
  lemma {:induction false} FirConv(c: seq<real>, r: Signal, e: seq<real>, m: nat, i: int)
    ensures Fir(c, Conv(r, e, m))(i) == Conv(Fir(c, r), e, m)(i)
  {
    hide Tail, At;
    if m == 0 {
      ConvNone(c, r, e, i);
    } else {
      ConvStep(r, e, m);
      ConvStep(Fir(c, r), e, m);
      hide Conv;
      FirConv(c, r, e, m - 1, i);
      TailLinear(c, At(e, m - 1), r, m - 1, Conv(r, e, m - 1), 0, Conv(r, e, m), i, 0);
      Distribute2(At(e, m - 1), r(i - (m - 1)), Tail(c, r, i - (m - 1), 0));
    }
  }

  lemma Distribute2(a: real, x: real, y: real)
    ensures a * (x + y) == a * x + a * y
  {
  }

  lemma ConvNone(c: seq<real>, r: Signal, e: seq<real>, i: int)
    ensures Fir(c, Conv(r, e, 0))(i) == Conv(Fir(c, r), e, 0)(i)
  {
    TailZero(c, Conv(r, e, 0), i, 0);
  }

  /** Convolving an impulse gives the signal itself. */
  lemma {:induction false} ConvImpulse(e: seq<real>, m: nat, i: int)
    requires m <= |e|
    ensures Conv(Impulse(), e, m)(i) == if i < m then At(e, i) else 0.0
  {
    if m > 0 {
      ConvStep(Impulse(), e, m);
      ConvImpulse(e, m - 1, i);
    }
  }

  lemma ConvExt(f: Signal, g: Signal, n: int, e: seq<real>, m: nat, i: int)
    requires Agree(n, f, g) && i < n
    ensures Conv(f, e, m)(i) == Conv(g, e, m)(i)
  {
    var p, q := (k: int) => At(e, k) * f(i - k), (k: int) => At(e, k) * g(i - k);
    SumExt(m, p, q);
    SumExt(m, p, k => At(e, k) * f(i - k));
    SumExt(m, q, k => At(e, k) * g(i - k));
  }

  lemma ConvCausal(r: Signal, e: seq<real>, m: nat)
    requires Causal(r)
    ensures Causal(Conv(r, e, m))
  {
    forall i | i < 0
      ensures Conv(r, e, m)(i) == 0.0
    {
      SumZero(m, k => At(e, k) * r(i - k));
    }
  }

  /** The two stages of perceptual synthesis, as difference equations. */
  ghost predicate Synthesised(ak: seq<real>, awk1: seq<real>, awk2: seq<real>, x: Signal, y: Signal, n: int) {
    exists w: Signal :: Causal(w) && Filtered([], ak, x, w, n) && Filtered(awk1, awk2, w, y, n)
  }

  /** Perceptual synthesis as one equation, without the intermediate signal. */
  lemma SynthesisEquation(ak: seq<real>, awk1: seq<real>, awk2: seq<real>, x: Signal, y: Signal, n: int)
    requires Synthesised(ak, awk1, awk2, x, y, n)
    ensures Agree(n, Fir(ak, Fir(awk2, y)), Fir(awk1, x))
  {
    hide Tail;
    var w :| Causal(w) && Filtered([], ak, x, w, n) && Filtered(awk1, awk2, w, y, n);
    Agree0(x);
    forall i | i < n
      ensures Fir(ak, Fir(awk2, y))(i) == Fir(awk1, x)(i)
    {
      Same(ak, Fir(awk2, y), Fir(awk1, w), n, i);
      FirCommutes(ak, awk1, w, i);
      Same(awk1, Fir(ak, w), Fir([], x), n, i);
      Same(awk1, Fir([], x), x, n, i);
    }
  }

  /** Signals with the same synthesis equation are equal. */
  lemma SynthesisUnique(ak: seq<real>, awk2: seq<real>, y: Signal, z: Signal, n: int)
    requires Causal(y) && Causal(z)
    requires Agree(n, Fir(ak, Fir(awk2, y)), Fir(ak, Fir(awk2, z)))
    ensures Agree(n, y, z)
  {
    hide Tail;
    FirCausalZero(awk2, y);
    FirCausalZero(awk2, z);
    FirInjective(ak, Fir(awk2, y), Fir(awk2, z), n);
    FirInjective(awk2, y, z, n);
  }

  /** Perceptual synthesis is convolution with its impulse response. */
  lemma SynthesisIsConvolution(ak: seq<real>, awk1: seq<real>, awk2: seq<real>, h: Signal, e: seq<real>, y: Signal, n: int)
    requires Causal(h) && Causal(y)
    requires Synthesised(ak, awk1, awk2, Impulse(), h, n)
    requires Synthesised(ak, awk1, awk2, Sig(e), y, n)
    ensures Agree(n, y, Conv(h, e, |e|))
  {
    hide Tail, Conv, Synthesised, Sig;
    SynthesisEquation(ak, awk1, awk2, Impulse(), h, n);
    SynthesisEquation(ak, awk1, awk2, Sig(e), y, n);
    ConvCausal(h, e, |e|);
    forall i | i < n
      ensures Fir(ak, Fir(awk2, y))(i) == Fir(ak, Fir(awk2, Conv(h, e, |e|)))(i)
    {
      ConvEquation(ak, awk1, awk2, h, e, n, i);
    }
    SynthesisUnique(ak, awk2, y, Conv(h, e, |e|), n);
  }

  lemma ConvEquation(ak: seq<real>, awk1: seq<real>, awk2: seq<real>, h: Signal, e: seq<real>, n: int, i: int)
    requires Agree(n, Fir(ak, Fir(awk2, h)), Fir(awk1, Impulse())) && i < n
    ensures Fir(ak, Fir(awk2, Conv(h, e, |e|)))(i) == Fir(awk1, Sig(e))(i)
  {
    hide Tail, Conv, Impulse;
    var m := |e|;
    forall i
      ensures Fir(awk2, Conv(h, e, m))(i) == Conv(Fir(awk2, h), e, m)(i)
    {
      FirConv(awk2, h, e, m, i);
    }
    Same(ak, Fir(awk2, Conv(h, e, m)), Conv(Fir(awk2, h), e, m), n, i);
    FirConv(ak, Fir(awk2, h), e, m, i);
    ConvExt(Fir(ak, Fir(awk2, h)), Fir(awk1, Impulse()), n, e, m, i);
    FirConv(awk1, Impulse(), e, m, i);
    forall i
      ensures Conv(Impulse(), e, m)(i) == Sig(e)(i)
    {
      ConvImpulse(e, m, i);
    }
    Same(awk1, Conv(Impulse(), e, m), Sig(e), n, i);
  }

  lemma {:induction false} TailImpulse(c: seq<real>, i: int, j: nat)
    ensures Tail(c, Impulse(), i, j) == if i >= 1 then At(c, j + i - 1) else 0.0
    decreases |c| - j
  {
    if j < |c| {
      TailImpulse(c, i - 1, j + 1);
    }
  }

  /** The shortcut of compute_impulse_response: feeding the numerator through
      the two denominators gives the response of the whole chain. */
  lemma ImpulseShortcut(ak: seq<real>, awk1: seq<real>, awk2: seq<real>, n: int, v: Signal, y: Signal, h: Signal)
    requires Causal(y) && Causal(h)
    requires Filtered([], awk2, Sig([1.0] + awk1), v, n) && Filtered([], ak, v, y, n)
    requires Synthesised(ak, awk1, awk2, Impulse(), h, n)
    ensures Agree(n, y, h)
  {
    hide Tail, Synthesised;
    SynthesisEquation(ak, awk1, awk2, Impulse(), h, n);
    Agree0(v);
    Agree0(Sig([1.0] + awk1));
    forall i | i < n
      ensures Fir(ak, Fir(awk2, y))(i) == Fir(ak, Fir(awk2, h))(i)
    {
      FirCommutes(ak, awk2, y, i);
      Same(awk2, Fir(ak, y), Fir([], v), n, i);
      Same(awk2, Fir([], v), v, n, i);
      assert Fir(awk2, v)(i) == Fir([], Sig([1.0] + awk1))(i);
      TailImpulse(awk1, i, 0);
    }
    SynthesisUnique(ak, awk2, y, h, n);
  }
}
