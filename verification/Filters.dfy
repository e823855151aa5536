/** The filters as filters.c runs them, sample by sample over the memories. */
module Filters {
  import opened RealSums
  import opened FilterSpec

  /** c + a b */
  function Mac(c: real, a: real, b: real): real {
    c + a * b
  }

  /** The last memory takes both products and nothing else; a zero coefficient
      adds nothing. */
  lemma MacBoth(a: real, x: real, b: real, y: real)
    ensures Mac(Mac(0.0, a, x), b, y) == a * x + b * y
  {
  }

  lemma MacNone(c: real, x: real)
    ensures Mac(c, 0.0, x) == c
  {
  }

  /** What memory cell j holds at time i of a run from mem0. */
  function Memory(num: seq<real>, den: seq<real>, mem0: seq<real>, x: seq<real>, y: seq<real>, i: nat, j: nat): real {
    At(mem0, i + j) + Tail(num, Sig(x), i, j) - Tail(den, Sig(y), i, j)
  }

  /** y solves the difference equation of num over den on x, started from the
      given memory. */
  ghost predicate Runs(num: seq<real>, den: seq<real>, mem0: seq<real>, x: seq<real>, y: seq<real>) {
    && |y| == |x|
    && forall i :: 0 <= i < |x| ==> y[i] == x[i] + Memory(num, den, mem0, x, y, i, 0)
  }

  /** The next memory from the last one: the update of the inner loop. */
  lemma MemoryStep(num: seq<real>, den: seq<real>, mem0: seq<real>, x: seq<real>, y: seq<real>, i: nat, j: nat)
    requires j < |mem0| == |num| == |den| && i < |x| && i < |y|
    ensures Memory(num, den, mem0, x, y, i + 1, j)
         == Memory(num, den, mem0, x, y, i, j + 1) + num[j] * x[i] - den[j] * y[i]
  {
  }

  /** Only the outputs before time i matter to the memory at time i. */
  lemma MemoryCausal(num: seq<real>, den: seq<real>, mem0: seq<real>, x: seq<real>, y: seq<real>, y': seq<real>, i: nat, j: nat)
    requires i <= |y| && i <= |y'| && y[..i] == y'[..i]
    ensures Memory(num, den, mem0, x, y, i, j) == Memory(num, den, mem0, x, y', i, j)
  {
    forall k | k < i
      ensures Sig(y)(k) == Sig(y')(k)
    {
      if k >= 0 {
        assert y[k] == y[..i][k] && y'[k] == y'[..i][k];
      }
    }
    TailCausal(den, Sig(y), Sig(y'), i, j);
  }

  lemma RunsExtend(num: seq<real>, den: seq<real>, mem0: seq<real>, x: seq<real>, y: seq<real>, v: real)
    requires |y| < |x|
    requires Runs(num, den, mem0, x[..|y|], y)
    requires v == x[|y|] + Memory(num, den, mem0, x, y, |y|, 0)
    ensures Runs(num, den, mem0, x[..|y| + 1], y + [v])
  {
    hide Memory;
    var n := |y|;
    var (x1, y1) := (x[..n + 1], y + [v]);
    forall i | 0 <= i <= n
      ensures y1[i] == x1[i] + Memory(num, den, mem0, x1, y1, i, 0)
    {
      MemoryCausal(num, den, mem0, x1, y1, y, i, 0);
      InputCausal(num, den, mem0, x1, x, y, i, 0);
      if i < n {
        InputCausal(num, den, mem0, x[..n], x, y, i, 0);
        assert y[i] == x[..n][i] + Memory(num, den, mem0, x[..n], y, i, 0);
      }
    }
  }

  lemma InputCausal(num: seq<real>, den: seq<real>, mem0: seq<real>, x: seq<real>, x': seq<real>, y: seq<real>, i: nat, j: nat)
    requires i <= |x| && i <= |x'| && x[..i] == x'[..i]
    ensures Memory(num, den, mem0, x, y, i, j) == Memory(num, den, mem0, x', y, i, j)
  {
    forall k | k < i
      ensures Sig(x)(k) == Sig(x')(k)
    {
      if k >= 0 {
        assert x[k] == x[..i][k] && x'[k] == x'[..i][k];
      }
    }
    TailCausal(num, Sig(x), Sig(x'), i, j);
  }

  /** A run from rest solves the difference equation. */
  lemma RunsFiltered(num: seq<real>, den: seq<real>, mem0: seq<real>, x: seq<real>, y: seq<real>)
    requires Runs(num, den, mem0, x, y) && forall k :: 0 <= k < |mem0| ==> mem0[k] == 0.0
    ensures Filtered(num, den, Sig(x), Sig(y), |x|)
  {
    forall i | i < |x|
      ensures Fir(den, Sig(y))(i) == Fir(num, Sig(x))(i)
    {
      if i < 0 {
        TailZero(den, Sig(y), i, 0);
        TailZero(num, Sig(x), i, 0);
      } else {
        assert y[i] == x[i] + Memory(num, den, mem0, x, y, i, 0);
        hide Tail;
      }
    }
  }

  ghost predicate Holds(mem: seq<real>, num: seq<real>, den: seq<real>, mem0: seq<real>, x: seq<real>, y: seq<real>, i: nat) {
    && |mem| == |mem0|
    && forall j :: 0 <= j < |mem| ==> mem[j] == Memory(num, den, mem0, x, y, i, j)
  }

  /** Numerator and denominator, with one memory. The output may overwrite the
      input. */
  method FilterMem16(x: array<real>, num: array<real>, den: array<real>, y: array<real>, N: nat, ord: nat, mem: array<real>)
    requires N <= x.Length && N <= y.Length
    requires 1 <= ord && num.Length == den.Length == mem.Length == ord
    requires mem != x && mem != y && mem != num && mem != den && y != num && y != den
    modifies y, mem
    ensures Runs(num[..], den[..], old(mem[..]), old(x[..N]), y[..N])
    ensures y[N..] == old(y[N..])
    ensures Holds(mem[..], num[..], den[..], old(mem[..]), old(x[..N]), y[..N], N)
  {
    hide Memory, Runs, Mac;
    ghost var c, d, m0, xs := num[..], den[..], mem[..], x[..N];
    ghost var ys: seq<real> := [];
    MemoryStart(c, d, m0, xs);
    RunsNone(c, d, m0, xs[..0]);
    for i := 0 to N
      invariant |ys| == i && y[..i] == ys
      invariant forall k :: i <= k < x.Length && k < N ==> x[k] == xs[k]
      invariant y[N..] == old(y[N..])
      invariant num[..] == c && den[..] == d
      invariant Runs(c, d, m0, xs[..i], ys)
      invariant Holds(mem[..], c, d, m0, xs, ys, i)
    {
      var xi := x[i];
      var yi := x[i] + mem[0];
      var nyi := -yi;
      RunsExtend(c, d, m0, xs, ys, yi);
      ghost var ys1 := ys + [yi];
      ghost var before := mem[..];
      for j := 0 to ord - 1
        modifies mem
        invariant forall k :: j <= k < ord ==> mem[k] == before[k]
        invariant forall k :: 0 <= k < j ==> mem[k] == Memory(c, d, m0, xs, ys1, i + 1, k)
      {
        MemoryNext(c, d, m0, xs, ys, yi, i, j);
        assert mem[j + 1] == Memory(c, d, m0, xs, ys, i, j + 1) && num[j] == c[j] && den[j] == d[j];
        mem[j] := Mac(Mac(mem[j + 1], num[j], xi), den[j], nyi);
      }
      MemoryNext(c, d, m0, xs, ys, yi, i, ord - 1);
      MemoryLast(c, d, m0, xs, ys, i);
      MacBoth(num[ord - 1], xi, den[ord - 1], nyi);
      mem[ord - 1] := num[ord - 1] * xi + den[ord - 1] * nyi;
      y[i] := yi;
      ys := ys1;
    }
    assert xs[..N] == xs;
  }

  lemma MemoryStart(num: seq<real>, den: seq<real>, mem0: seq<real>, x: seq<real>)
    ensures Holds(mem0, num, den, mem0, x, [], 0)
  {
    forall j | 0 <= j < |mem0|
      ensures mem0[j] == Memory(num, den, mem0, x, [], 0, j)
    {
      TailZero(num, Sig(x), 0, j);
      TailZero(den, Sig([]), 0, j);
    }
  }

  lemma RunsNone(num: seq<real>, den: seq<real>, mem0: seq<real>, x: seq<real>)
    requires x == []
    ensures Runs(num, den, mem0, x, [])
  {
  }

  lemma MemoryNext(num: seq<real>, den: seq<real>, mem0: seq<real>, x: seq<real>, y: seq<real>, v: real, i: nat, j: nat)
    requires j < |mem0| == |num| == |den| && i == |y| < |x|
    ensures Memory(num, den, mem0, x, y + [v], i + 1, j)
         == Mac(Mac(Memory(num, den, mem0, x, y, i, j + 1), num[j], x[i]), den[j], -v)
  {
    hide Memory;
    MemoryStep(num, den, mem0, x, y + [v], i, j);
    MemoryCausal(num, den, mem0, x, y + [v], y, i, j + 1);
    MacTwice(Memory(num, den, mem0, x, y, i, j + 1), num[j], x[i], den[j], v);
  }

  lemma MacTwice(c: real, a: real, x: real, b: real, v: real)
    ensures Mac(Mac(c, a, x), b, -v) == c + a * x - b * v
  {
  }

  lemma MemoryLast(num: seq<real>, den: seq<real>, mem0: seq<real>, x: seq<real>, y: seq<real>, i: nat)
    requires |mem0| == |num| == |den|
    ensures Memory(num, den, mem0, x, y, i, |mem0|) == 0.0
  {
  }

  /** Denominator only. */
  method IirMem16(x: array<real>, den: array<real>, y: array<real>, N: nat, ord: nat, mem: array<real>)
    requires N <= x.Length && N <= y.Length
    requires 1 <= ord && den.Length == mem.Length == ord
    requires mem != x && mem != y && mem != den && y != den
    modifies y, mem
    ensures Runs(Zeros(ord), den[..], old(mem[..]), old(x[..N]), y[..N])
    ensures y[N..] == old(y[N..])
    ensures Holds(mem[..], Zeros(ord), den[..], old(mem[..]), old(x[..N]), y[..N], N)
  {
    hide Memory, Runs, Mac;
    ghost var c, d, m0, xs := Zeros(ord), den[..], mem[..], x[..N];
    ghost var ys: seq<real> := [];
    MemoryStart(c, d, m0, xs);
    RunsNone(c, d, m0, xs[..0]);
    for i := 0 to N
      invariant |ys| == i && y[..i] == ys
      invariant forall k :: i <= k < x.Length && k < N ==> x[k] == xs[k]
      invariant y[N..] == old(y[N..]) && den[..] == d
      invariant Runs(c, d, m0, xs[..i], ys)
      invariant Holds(mem[..], c, d, m0, xs, ys, i)
    {
      var yi := x[i] + mem[0];
      var nyi := -yi;
      RunsExtend(c, d, m0, xs, ys, yi);
      ghost var ys1 := ys + [yi];
      ghost var before := mem[..];
      for j := 0 to ord - 1
        modifies mem
        invariant forall k :: j <= k < ord ==> mem[k] == before[k]
        invariant forall k :: 0 <= k < j ==> mem[k] == Memory(c, d, m0, xs, ys1, i + 1, k)
      {
        MemoryNext(c, d, m0, xs, ys, yi, i, j);
        assert mem[j + 1] == Memory(c, d, m0, xs, ys, i, j + 1) && den[j] == d[j];
        MacNone(mem[j + 1], xs[i]);
        mem[j] := Mac(mem[j + 1], den[j], nyi);
      }
      MemoryNext(c, d, m0, xs, ys, yi, i, ord - 1);
      MemoryLast(c, d, m0, xs, ys, i);
      MacNone(0.0, xs[i]);
      MacZero(den[ord - 1], nyi);
      mem[ord - 1] := den[ord - 1] * nyi;
      y[i] := yi;
      ys := ys1;
    }
    assert xs[..N] == xs;
  }

  function Zeros(n: nat): (z: seq<real>)
    ensures |z| == n && forall k :: 0 <= k < n ==> z[k] == 0.0
  {
    seq(n, _ => 0.0)
  }

  /** Numerator only. */
  method FirMem16(x: array<real>, num: array<real>, y: array<real>, N: nat, ord: nat, mem: array<real>)
    requires N <= x.Length && N <= y.Length
    requires 1 <= ord && num.Length == mem.Length == ord
    requires mem != x && mem != y && mem != num && y != num
    modifies y, mem
    ensures Runs(num[..], Zeros(ord), old(mem[..]), old(x[..N]), y[..N])
    ensures y[N..] == old(y[N..])
    ensures Holds(mem[..], num[..], Zeros(ord), old(mem[..]), old(x[..N]), y[..N], N)
  {
    hide Memory, Runs, Mac;
    ghost var c, d, m0, xs := num[..], Zeros(ord), mem[..], x[..N];
    ghost var ys: seq<real> := [];
    MemoryStart(c, d, m0, xs);
    RunsNone(c, d, m0, xs[..0]);
    for i := 0 to N
      invariant |ys| == i && y[..i] == ys
      invariant forall k :: i <= k < x.Length && k < N ==> x[k] == xs[k]
      invariant y[N..] == old(y[N..]) && num[..] == c
      invariant Runs(c, d, m0, xs[..i], ys)
      invariant Holds(mem[..], c, d, m0, xs, ys, i)
    {
      var xi := x[i];
      var yi := x[i] + mem[0];
      RunsExtend(c, d, m0, xs, ys, yi);
      ghost var ys1 := ys + [yi];
      ghost var before := mem[..];
      for j := 0 to ord - 1
        modifies mem
        invariant forall k :: j <= k < ord ==> mem[k] == before[k]
        invariant forall k :: 0 <= k < j ==> mem[k] == Memory(c, d, m0, xs, ys1, i + 1, k)
      {
        MemoryNext(c, d, m0, xs, ys, yi, i, j);
        assert mem[j + 1] == Memory(c, d, m0, xs, ys, i, j + 1) && num[j] == c[j];
        MacNone(Mac(mem[j + 1], num[j], xi), -yi);
        mem[j] := Mac(mem[j + 1], num[j], xi);
      }
      MemoryNext(c, d, m0, xs, ys, yi, i, ord - 1);
      MemoryLast(c, d, m0, xs, ys, i);
      MacNone(Mac(0.0, num[ord - 1], xi), -yi);
      MacZero(num[ord - 1], xi);
      mem[ord - 1] := num[ord - 1] * xi;
      y[i] := yi;
      ys := ys1;
    }
    assert xs[..N] == xs;
  }

  lemma {:induction false} TailZeros(n: nat, x: Signal, i: int, j: nat)
    ensures Tail(Zeros(n), x, i, j) == 0.0
    decreases n - j
  {
    if j < n {
      TailZeros(n, x, i - 1, j + 1);
    }
  }

  /** All-zero coefficients are no coefficients. */
  lemma FirZeros(n: nat, x: Signal)
    ensures forall i :: Fir(Zeros(n), x)(i) == Fir([], x)(i)
  {
    forall i
      ensures Fir(Zeros(n), x)(i) == Fir([], x)(i)
    {
      TailZeros(n, x, i, 0);
      assert Tail([], x, i, 0) == 0.0;
    }
  }

  lemma IirFiltered(den: seq<real>, x: seq<real>, y: seq<real>)
    requires Runs(Zeros(|den|), den, Zeros(|den|), x, y)
    ensures Filtered([], den, Sig(x), Sig(y), |x|)
  {
    RunsFiltered(Zeros(|den|), den, Zeros(|den|), x, y);
    FirZeros(|den|, Sig(x));
  }

  lemma FirFiltered(num: seq<real>, x: seq<real>, y: seq<real>)
    requires Runs(num, Zeros(|num|), Zeros(|num|), x, y)
    ensures Filtered(num, [], Sig(x), Sig(y), |x|)
  {
    RunsFiltered(num, Zeros(|num|), Zeros(|num|), x, y);
    FirZeros(|num|, Sig(y));
  }

  /** Perceptual synthesis from rest; the output may overwrite the input. */
  method SynPercepZero16(xx: array<real>, ak: array<real>, awk1: array<real>, awk2: array<real>, y: array<real>, N: nat, ord: nat)
    requires N <= xx.Length && N <= y.Length
    requires 1 <= ord && ak.Length == awk1.Length == awk2.Length == ord
    requires y != ak && y != awk1 && y != awk2
    modifies y
    ensures Synthesised(ak[..], awk1[..], awk2[..], Sig(old(xx[..N])), Sig(y[..N]), N)
    ensures y[N..] == old(y[N..])
  {
    hide Memory, Runs, Filtered, Holds;
    var mem := new real[ord](_ => 0.0);
    assert mem[..] == Zeros(ord);
    ghost var x0, a, c, d := xx[..N], ak[..], awk1[..], awk2[..];
    IirMem16(xx, ak, y, N, ord, mem);
    ghost var w := y[..N];
    IirFiltered(a, x0, w);
    forall i | 0 <= i < ord {
      mem[i] := 0.0;
    }
    assert mem[..] == Zeros(ord) && y[..N] == w;
    FilterMem16(y, awk1, awk2, y, N, ord, mem);
    assert ak[..] == a && awk1[..] == c && awk2[..] == d;
    RunsFiltered(c, d, Zeros(ord), w, y[..N]);
    SynthesisWitness(a, c, d, x0, w, y[..N]);
  }

  lemma SynthesisWitness(ak: seq<real>, awk1: seq<real>, awk2: seq<real>, x: seq<real>, w: seq<real>, y: seq<real>)
    requires |x| == |w| == |y|
    requires Filtered([], ak, Sig(x), Sig(w), |x|) && Filtered(awk1, awk2, Sig(w), Sig(y), |x|)
    ensures Synthesised(ak, awk1, awk2, Sig(x), Sig(y), |x|)
  {
    hide Filtered;
    assert Causal(Sig(w));
  }

  /** The two stages of the perceptual residue, as difference equations. */
  ghost predicate Residue(ak: seq<real>, awk1: seq<real>, awk2: seq<real>, x: Signal, v: Signal, n: int) {
    exists u: Signal :: Causal(u) && Filtered(ak, awk1, x, u, n) && Filtered(awk2, [], u, v, n)
  }

  /** Perceptual residue from rest; the output may overwrite the input. */
  method ResiduePercepZero16(xx: array<real>, ak: array<real>, awk1: array<real>, awk2: array<real>, y: array<real>, N: nat, ord: nat)
    requires N <= xx.Length && N <= y.Length
    requires 1 <= ord && ak.Length == awk1.Length == awk2.Length == ord
    requires y != ak && y != awk1 && y != awk2
    modifies y
    ensures Residue(ak[..], awk1[..], awk2[..], Sig(old(xx[..N])), Sig(y[..N]), N)
    ensures y[N..] == old(y[N..])
  {
    hide Memory, Runs, Filtered, Holds;
    var mem := new real[ord](_ => 0.0);
    assert mem[..] == Zeros(ord);
    ghost var x0, a, c, d := xx[..N], ak[..], awk1[..], awk2[..];
    FilterMem16(xx, ak, awk1, y, N, ord, mem);
    ghost var u := y[..N];
    RunsFiltered(a, c, Zeros(ord), x0, u);
    forall i | 0 <= i < ord {
      mem[i] := 0.0;
    }
    assert mem[..] == Zeros(ord) && y[..N] == u;
    FirMem16(y, awk2, y, N, ord, mem);
    assert ak[..] == a && awk1[..] == c && awk2[..] == d;
    FirFiltered(d, u, y[..N]);
    ResidueWitness(a, c, d, x0, u, y[..N]);
  }

  lemma ResidueWitness(ak: seq<real>, awk1: seq<real>, awk2: seq<real>, x: seq<real>, u: seq<real>, v: seq<real>)
    requires |x| == |u| == |v|
    requires Filtered(ak, awk1, Sig(x), Sig(u), |x|) && Filtered(awk2, [], Sig(u), Sig(v), |x|)
    ensures Residue(ak, awk1, awk2, Sig(x), Sig(v), |x|)
  {
    hide Filtered;
    assert Causal(Sig(u));
  }

  /** Whatever the coefficients, order and length, the synthesis of a residue
      is the signal it came from. */
  lemma SynthesisOfResidue(ak: seq<real>, awk1: seq<real>, awk2: seq<real>, x: seq<real>, v: seq<real>, y: seq<real>)
    requires |x| == |v| == |y|
    requires Residue(ak, awk1, awk2, Sig(x), Sig(v), |x|)
    requires Synthesised(ak, awk1, awk2, Sig(v), Sig(y), |x|)
    ensures y == x
  {
    var n := |x|;
    var u: Signal :| Causal(u) && Filtered(ak, awk1, Sig(x), u, n) && Filtered(awk2, [], u, Sig(v), n);
    var w: Signal :| Causal(w) && Filtered([], ak, Sig(v), w, n) && Filtered(awk1, awk2, w, Sig(y), n);
    SynthesisUndoesResidue(ak, awk1, awk2, n, Sig(x), u, Sig(v), w, Sig(y));
    forall i | 0 <= i < n
      ensures y[i] == x[i]
    {
      assert Sig(y)(i) == Sig(x)(i);
    }
  }

  /** Running both functions in place restores the array. */
  method ResidueThenSynthesis(a: array<real>, ak: array<real>, awk1: array<real>, awk2: array<real>, N: nat, ord: nat)
    requires N <= a.Length && 1 <= ord && ak.Length == awk1.Length == awk2.Length == ord
    requires a != ak && a != awk1 && a != awk2
    modifies a
    ensures a[..] == old(a[..])
  {
    hide Residue, Synthesised;
    ghost var x := a[..N];
    ResiduePercepZero16(a, ak, awk1, awk2, a, N, ord);
    ghost var v := a[..N];
    SynPercepZero16(a, ak, awk1, awk2, a, N, ord);
    SynthesisOfResidue(ak[..], awk1[..], awk2[..], x, v, a[..N]);
    assert a[..] == a[..N] + a[N..];
  }

  /** The output of a filter from rest exists for every input. */
  ghost function RunOf(num: seq<real>, den: seq<real>, x: seq<real>): (y: seq<real>)
    ensures Runs(num, den, [], x, y)
    decreases |x|
  {
    if x == [] then []
    else
      var n := |x| - 1;
      RunNext(num, den, x, RunOf(num, den, x[..n]))
  }

  /** A run on all but the last input, and the last output. */
  ghost function RunNext(num: seq<real>, den: seq<real>, x: seq<real>, y: seq<real>): (y': seq<real>)
    requires x != [] && Runs(num, den, [], x[..|x| - 1], y)
    ensures Runs(num, den, [], x, y')
  {
    var n := |x| - 1;
    var v := x[n] + Memory(num, den, [], x, y, n, 0);
    RunsExtend(num, den, [], x, y, v);
    assert x[..n + 1] == x;
    y + [v]
  }

  function ImpulseOf(n: nat): seq<real> {
    seq(n, i => if i == 0 then 1.0 else 0.0)
  }

  lemma SynthesisOfImpulse(ak: seq<real>, awk1: seq<real>, awk2: seq<real>, n: nat)
    ensures var h := RunOf(awk1, awk2, RunOf([], ak, ImpulseOf(n)));
      |h| == n && Synthesised(ak, awk1, awk2, Impulse(), Sig(h), n)
  {
    hide Memory, Runs, Filtered, Tail;
    var d := ImpulseOf(n);
    var w := RunOf([], ak, d);
    RunLength([], ak, d);
    RunLength(awk1, awk2, w);
    var h := RunOf(awk1, awk2, w);
    RunsFiltered([], ak, [], d, w);
    RunsFiltered(awk1, awk2, [], w, h);
    assert Agree(n, Sig(d), Impulse());
    FilteredInput([], ak, Sig(d), Impulse(), Sig(w), n);
    assert Causal(Sig(w));
  }

  lemma RunLength(num: seq<real>, den: seq<real>, x: seq<real>)
    ensures |RunOf(num, den, x)| == |x|
  {
    hide Memory;
  }

  lemma FilteredInput(num: seq<real>, den: seq<real>, x: Signal, x': Signal, y: Signal, n: int)
    requires Filtered(num, den, x, y, n) && Agree(n, x, x')
    ensures Filtered(num, den, x', y, n)
  {
    FirCausal(num, x, x', n);
  }

  lemma FilteredOutput(num: seq<real>, den: seq<real>, x: Signal, y: Signal, y': Signal, n: int)
    requires Filtered(num, den, x, y, n) && Agree(n, y, y')
    ensures Filtered(num, den, x, y', n)
  {
    FirCausal(den, y, y', n);
  }

  /** The merged loop computes the impulse response of perceptual synthesis. */
  lemma ResponseOfShortcut(ak: seq<real>, awk1: seq<real>, awk2: seq<real>, p: seq<real>, v: seq<real>, y: seq<real>)
    requires |p| == |v| == |y| && Agree(|p|, Sig(p), Sig([1.0] + awk1))
    requires Filtered([], awk2, Sig(p), Sig(v), |p|) && Filtered([], ak, Sig(v), Sig(y), |p|)
    ensures Synthesised(ak, awk1, awk2, Impulse(), Sig(y), |p|)
  {
    hide *;
    var n := |p|;
    SynthesisOfImpulse(ak, awk1, awk2, n);
    var h := RunOf(awk1, awk2, RunOf([], ak, ImpulseOf(n)));
    FilteredInput([], awk2, Sig(p), Sig([1.0] + awk1), Sig(v), n);
    CausalSigs(y);
    CausalSigs(h);
    ImpulseShortcut(ak, awk1, awk2, n, Sig(v), Sig(y), Sig(h));
    SynthesisReplaced(ak, awk1, awk2, Sig(h), Sig(y), n);
  }

  lemma CausalSigs(y: seq<real>)
    ensures Causal(Sig(y))
  {
  }

  /** A signal that agrees with a synthesis is one. */
  lemma SynthesisReplaced(ak: seq<real>, awk1: seq<real>, awk2: seq<real>, h: Signal, y: Signal, n: int)
    requires Synthesised(ak, awk1, awk2, Impulse(), h, n) && Agree(n, y, h)
    ensures Synthesised(ak, awk1, awk2, Impulse(), y, n)
  {
    hide Filtered;
    assert Agree(n, h, y);
    var w: Signal :| Causal(w) && Filtered([], ak, Impulse(), w, n) && Filtered(awk1, awk2, w, h, n);
    FilteredOutput(awk1, awk2, w, h, y, n);
  }

  /** With no numerator the memory does not depend on the input. */
  lemma MemoryZeros(n: nat, den: seq<real>, mem0: seq<real>, x: seq<real>, x': seq<real>, y: seq<real>, i: nat, j: nat)
    ensures Memory(Zeros(n), den, mem0, x, y, i, j) == Memory(Zeros(n), den, mem0, x', y, i, j)
  {
    TailZeros(n, Sig(x), i, j);
    TailZeros(n, Sig(x'), i, j);
  }

  lemma HoldsZeros(mem: seq<real>, n: nat, den: seq<real>, mem0: seq<real>, x: seq<real>, x': seq<real>, y: seq<real>, i: nat)
    requires Holds(mem, Zeros(n), den, mem0, x, y, i)
    ensures Holds(mem, Zeros(n), den, mem0, x', y, i)
  {
    forall j | 0 <= j < |mem|
      ensures mem[j] == Memory(Zeros(n), den, mem0, x', y, i, j)
    {
      MemoryZeros(n, den, mem0, x, x', y, i, j);
    }
  }

  /** The input of the merged loop: the numerator, then silence. */
  function Numerator(awk1: seq<real>, N: nat): (p: seq<real>)
    ensures |p| == N
  {
    seq(N, i => if i == 0 then 1.0 else At(awk1, i - 1))
  }

  /** Everything the merged loop has established after i samples: v is the
      signal between the two denominators, y the output so far. */
  ghost predicate Merged(a: seq<real>, d: seq<real>, p: seq<real>, v: seq<real>, y: seq<real>, mem1: seq<real>, mem2: seq<real>, i: nat) {
    && |a| == |d| && i == |v| == |y| <= |p|
    && Runs(Zeros(|d|), d, Zeros(|d|), p[..i], v) && Runs(Zeros(|a|), a, Zeros(|a|), v, y)
    && Holds(mem1, Zeros(|d|), d, Zeros(|d|), p, v, i) && Holds(mem2, Zeros(|a|), a, Zeros(|a|), v, y, i)
  }

  lemma MergedStart(a: seq<real>, d: seq<real>, p: seq<real>)
    requires |a| == |d|
    ensures Merged(a, d, p, [], [], Zeros(|d|), Zeros(|a|), 0)
  {
    MemoryStart(Zeros(|d|), d, Zeros(|d|), p);
    MemoryStart(Zeros(|a|), a, Zeros(|a|), []);
    RunsNone(Zeros(|d|), d, Zeros(|d|), p[..0]);
    RunsNone(Zeros(|a|), a, Zeros(|a|), []);
  }

  lemma MergedStep(a: seq<real>, d: seq<real>, p: seq<real>, v: seq<real>, y: seq<real>,
                   mem1: seq<real>, mem2: seq<real>, i: nat, y1: real, y2: real, next1: seq<real>, next2: seq<real>)
    requires Merged(a, d, p, v, y, mem1, mem2, i) && i < |p| && |a| > 0 && |mem1| > 0 && |mem2| > 0
    requires y1 == p[i] + mem1[0] && y2 == y1 + mem2[0]
    requires Shifted(mem1, next1, d, -y1) && Shifted(mem2, next2, a, -y2)
    ensures Merged(a, d, p, v + [y1], y + [y2], next1, next2, i + 1)
  {
    hide Memory, Runs, Holds, Shifted;
    var n := |a|;
    var z := Zeros(n);
    HoldsFirst(mem1, z, d, z, p, v, i);
    HoldsFirst(mem2, z, a, z, v, y, i);
    RunsExtend(z, d, z, p, v, y1);
    var v1 := v + [y1];
    assert v1[..i] == v && v1[..i + 1] == v1;
    MemoryZeros(n, a, z, v, v1, y, i, 0);
    RunsExtend(z, a, z, v1, y, y2);
    HoldsZeros(mem2, n, a, z, v, v1, y, i);
    CellsHold(mem1, next1, d, n, p, v, y1, i);
    CellsHold(mem2, next2, a, n, v1, y, y2, i);
  }

  lemma MergedEnd(a: seq<real>, c: seq<real>, d: seq<real>, N: nat, v: seq<real>, y: seq<real>, mem1: seq<real>, mem2: seq<real>)
    requires |a| == |c| == |d| && Merged(a, d, Numerator(c, N), v, y, mem1, mem2, N)
    ensures Synthesised(a, c, d, Impulse(), Sig(y), N)
  {
    var p := Numerator(c, N);
    hide Memory, Runs, Holds, Filtered, Synthesised;
    assert p[..N] == p;
    RunsFiltered(Zeros(|d|), d, Zeros(|d|), p, v);
    RunsFiltered(Zeros(|a|), a, Zeros(|a|), v, y);
    Denominators(|d|, d, p, v);
    Denominators(|a|, a, v, y);
    assert Agree(N, Sig(p), Sig([1.0] + c));
    ResponseOfShortcut(a, c, d, p, v, y);
  }

  method FillNumerator(awk1: array<real>, y: array<real>, N: nat, ord: nat)
    requires 1 <= ord < N <= y.Length && awk1.Length == ord && y != awk1
    modifies y
    ensures y[..N] == Numerator(awk1[..], N)
    ensures y[N..] == old(y[N..])
  {
    ghost var p := Numerator(awk1[..], N);
    y[0] := 1.0;
    for i := 0 to ord
      invariant forall k :: 0 <= k <= i ==> y[k] == p[k]
      invariant y[N..] == old(y[N..])
    {
      y[i + 1] := awk1[i];
    }
    for i := ord + 1 to N
      invariant forall k :: 0 <= k < i ==> y[k] == p[k]
      invariant y[N..] == old(y[N..])
    {
      y[i] := 0.0;
    }
  }

  /** Both denominators in one pass over the numerator, with the 1e-15 that
      pads it taken as 0. */
  method ComputeImpulseResponse(ak: array<real>, awk1: array<real>, awk2: array<real>, y: array<real>, N: nat, ord: nat)
    requires 1 <= ord < N <= y.Length && ak.Length == awk1.Length == awk2.Length == ord
    requires y != ak && y != awk1 && y != awk2
    modifies y
    ensures Synthesised(ak[..], awk1[..], awk2[..], Impulse(), Sig(y[..N]), N)
    ensures y[N..] == old(y[N..])
  {
    hide Merged, Synthesised, Shifted, Numerator;
    ghost var a, c, d := ak[..], awk1[..], awk2[..];
    ghost var p := Numerator(c, N);
    FillNumerator(awk1, y, N, ord);
    var mem1, mem2 := new real[ord](_ => 0.0), new real[ord](_ => 0.0);
    ghost var vs: seq<real>, ys: seq<real> := [], [];
    assert mem1[..] == Zeros(ord) && mem2[..] == Zeros(ord);
    MergedStart(a, d, p);
    for i := 0 to N
      invariant |ys| == i && y[..i] == ys && y[i..N] == p[i..]
      invariant y[N..] == old(y[N..]) && ak[..] == a && awk2[..] == d
      invariant Merged(a, d, p, vs, ys, mem1[..], mem2[..], i)
    {
      assert y[i] == p[i] by { assert y[i..N][0] == p[i..][0]; }
      var y1 := y[i] + mem1[0];
      var y2 := y1 + mem2[0];
      ghost var before1, before2 := mem1[..], mem2[..];
      UpdateMemories(mem1, mem2, ak, awk2, ord, -y1, -y2);
      MergedStep(a, d, p, vs, ys, before1, before2, i, y1, y2, mem1[..], mem2[..]);
      label Write:
      y[i] := y2;
      vs, ys := vs + [y1], ys + [y2];
      assert y[i + 1..N] == p[i + 1..] by { assert y[i + 1..N] == old@Write(y[i..N])[1..]; }
      assert mem1[..] == old@Write(mem1[..]) && mem2[..] == old@Write(mem2[..]);
    }
    MergedEnd(a, c, d, N, vs, ys, mem1[..], mem2[..]);
    assert y[..N] == ys;
  }

  lemma Denominators(n: nat, den: seq<real>, x: seq<real>, y: seq<real>)
    requires Filtered(Zeros(n), den, Sig(x), Sig(y), |x|)
    ensures Filtered([], den, Sig(x), Sig(y), |x|)
  {
    FirZeros(n, Sig(x));
  }

  lemma HoldsFirst(mem: seq<real>, num: seq<real>, den: seq<real>, mem0: seq<real>, x: seq<real>, y: seq<real>, i: nat)
    requires Holds(mem, num, den, mem0, x, y, i) && |mem| > 0
    ensures mem[0] == Memory(num, den, mem0, x, y, i, 0)
  {
    hide Memory;
  }

  /** What one step leaves in a memory without numerator. */
  ghost predicate Shifted(before: seq<real>, after: seq<real>, den: seq<real>, ny: real) {
    && |after| == |before| == |den|
    && forall j :: 0 <= j < |after| ==> after[j] == Mac(At(before, j + 1), den[j], ny)
  }

  lemma CellsHold(before: seq<real>, after: seq<real>, den: seq<real>, n: nat, x: seq<real>, y: seq<real>, v: real, i: nat)
    requires n == |den| && i == |y| < |x|
    requires Holds(before, Zeros(n), den, Zeros(n), x, y, i) && Shifted(before, after, den, -v)
    ensures Holds(after, Zeros(n), den, Zeros(n), x, y + [v], i + 1)
  {
    hide Memory, Mac;
    forall j | 0 <= j < |after|
      ensures after[j] == Memory(Zeros(n), den, Zeros(n), x, y + [v], i + 1, j)
    {
      MemoryNext(Zeros(n), den, Zeros(n), x, y, v, i, j);
      MemoryLast(Zeros(n), den, Zeros(n), x, y, i);
      MacNone(Memory(Zeros(n), den, Zeros(n), x, y, i, j + 1), x[i]);
      assert after[j] == Mac(At(before, j + 1), den[j], -v);
    }
  }

  method UpdateMemories(mem1: array<real>, mem2: array<real>, ak: array<real>, awk2: array<real>, ord: nat, ny1i: real, ny2i: real)
    requires 1 <= ord == mem1.Length == mem2.Length == ak.Length == awk2.Length
    requires mem1 != mem2 && mem1 != ak && mem1 != awk2 && mem2 != ak && mem2 != awk2
    modifies mem1, mem2
    ensures Shifted(old(mem1[..]), mem1[..], awk2[..], ny1i)
    ensures Shifted(old(mem2[..]), mem2[..], ak[..], ny2i)
  {
    hide Mac, ShiftedTo, Shifted;
    ghost var b1, b2 := mem1[..], mem2[..];
    ShiftStart(b1, awk2[..], ny1i);
    ShiftStart(b2, ak[..], ny2i);
    for j := 0 to ord - 1
      invariant ShiftedTo(b1, mem1[..], awk2[..], ny1i, j) && ShiftedTo(b2, mem2[..], ak[..], ny2i, j)
    {
      ShiftNext(b1, mem1[..], awk2[..], ny1i, j);
      ShiftNext(b2, mem2[..], ak[..], ny2i, j);
      mem1[j] := Mac(mem1[j + 1], awk2[j], ny1i);
      mem2[j] := Mac(mem2[j + 1], ak[j], ny2i);
    }
    var last1, last2 := awk2[ord - 1] * ny1i, ak[ord - 1] * ny2i;
    ShiftLast(b1, mem1[..], awk2[..], ny1i, last1);
    ShiftLast(b2, mem2[..], ak[..], ny2i, last2);
    mem1[ord - 1] := last1;
    mem2[ord - 1] := last2;
  }

  /** The first j memories have been updated. */
  ghost predicate ShiftedTo(before: seq<real>, mem: seq<real>, den: seq<real>, ny: real, j: nat) {
    && |mem| == |before| == |den|
    && (forall k :: 0 <= k < j && k + 1 < |mem| ==> mem[k] == Mac(before[k + 1], den[k], ny))
    && forall k :: j <= k < |mem| ==> mem[k] == before[k]
  }

  lemma ShiftStart(before: seq<real>, den: seq<real>, ny: real)
    requires |den| == |before|
    ensures ShiftedTo(before, before, den, ny, 0)
  {
  }

  lemma ShiftNext(before: seq<real>, mem: seq<real>, den: seq<real>, ny: real, j: nat)
    requires ShiftedTo(before, mem, den, ny, j) && j + 1 < |before|
    ensures |mem| == |den| == |before| && ShiftedTo(before, mem[j := Mac(mem[j + 1], den[j], ny)], den, ny, j + 1)
  {
    hide Mac;
  }

  lemma ShiftLast(before: seq<real>, mem: seq<real>, den: seq<real>, ny: real, last: real)
    requires before != [] && |den| == |before| && last == den[|before| - 1] * ny && ShiftedTo(before, mem, den, ny, |before| - 1)
    ensures |mem| == |before| && Shifted(before, mem[|before| - 1 := last], den, ny)
  {
    MacZero(den[|before| - 1], ny);
    hide Mac;
  }

  lemma MacZero(a: real, b: real)
    ensures Mac(0.0, a, b) == a * b
  {
  }
}
