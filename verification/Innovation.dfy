/** Innovation coding: the two searches as the encoder calls them, and the
    decoder's side of split_cb_shape_sign_unquant. */
module Innovation {
  import opened IntArith
  import opened RealSums
  import opened FilterSpec
  import opened Filters
  import opened Vq
  import opened NBest
  import opened CbSpec
  import opened CbSearch
  import opened BitSeqs
  import opened Bits
  import Fields

  // ------------------------------------------------------- the N1 search

  /** Each codeword, of either sign, is the best one after those before it. */
  ghost predicate Greedy(s: Setup, path: seq<int>) {
    forall i, v :: 0 <= i < |path| && Label(s, v) ==> Cost(s, path[..i] + [path[i]]) <= Cost(s, path[..i] + [v])
  }

  ghost predicate BestNext(s: Setup, path: seq<int>, u: int) {
    forall v :: Label(s, v) ==> Cost(s, path + [u]) <= Cost(s, path + [v])
  }

  lemma GreedySnoc(s: Setup, path: seq<int>, u: int)
    requires Greedy(s, path) && BestNext(s, path, u)
    ensures Greedy(s, path + [u])
  {
    hide Cost, Label;
    var p := path + [u];
    forall i, v | 0 <= i < |p| && Label(s, v)
      ensures Cost(s, p[..i] + [p[i]]) <= Cost(s, p[..i] + [v])
    {
      if i < |path| {
        assert p[..i] == path[..i];
      } else {
        assert p[..i] == path;
      }
    }
  }

  /** The first of a list of one is the best row. */
  lemma FirstIsBest(s: Setup, path: seq<int>, E: seq<real>, idx: seq<int>)
    requires s.L >= 1 && s.K >= 1 && Energies(s, E) && BestOf(RankOf(s, path, E), s.K, 1, idx)
    ensures |idx| == 1 && 0 <= idx[0] < s.K && Label(s, LabelOf(s, path, idx[0]))
    ensures BestNext(s, path, LabelOf(s, path, idx[0]))
  {
    hide LabelOf, RankOf, HalfError, Cost, Energies;
    var u := LabelOf(s, path, idx[0]);
    RankIsError(s, path, E, idx[0]);
    CostOf(s, path, u);
    forall v | Label(s, v)
      ensures Cost(s, path + [u]) <= Cost(s, path + [v])
    {
      NoBetter(s, path, E, idx, v);
      CostOf(s, path, v);
    }
  }

  lemma CostOf(s: Setup, path: seq<int>, v: int)
    requires s.L >= 1 && Label(s, v)
    ensures Cost(s, path + [v]) == Cost(s, path) + HalfError(s, path, v)
  {
    TableIsWeighted(s);
    CostOfChoice(s, path, v, Table(s));
    hide Cost, Table, SquaredDistance, Ahead;
  }

  lemma NoBetter(s: Setup, path: seq<int>, E: seq<real>, idx: seq<int>, v: int)
    requires s.L >= 1 && Energies(s, E) && Label(s, v) && BestOf(RankOf(s, path, E), s.K, 1, idx) && |idx| == 1
    ensures HalfError(s, path, LabelOf(s, path, idx[0])) <= HalfError(s, path, v)
  {
    var row, c := idx[0], RowOf(s, v);
    RankIsError(s, path, E, row);
    RankIsError(s, path, E, c);
    if s.sign {
      OtherSign(s, path, v);
    } else {
      assert LabelOf(s, path, c) == v;
    }
    hide LabelOf, RankOf, HalfError, Energies, Norm, Ahead;
    if c != row {
      assert c !in idx;
      assert Before(RankOf(s, path, E), idx[0], c);
    }
  }

  /** Subtracts codeword v from its own subvector. */
  method SubtractHere(s: Setup, M: nat, ghost path: seq<int>, i: nat, v: int, resp: seq<real>, t: array<real>)
    requires Proper(s, M) && i < M && |path| == i && Label(s, v) && t.Length == M * s.L && resp == Table(s)
    requires forall n :: 0 <= n < M * s.L ==> t[n] == Rest(s, path)(n)
    modifies t
    ensures var o, o' := i * s.L, (i + 1) * s.L;
      && 0 <= o <= o' <= M * s.L
      && (forall n :: 0 <= n < o' ==> t[n] == Rest(s, path + [v])(n))
      && (forall n :: o' <= n < M * s.L ==> t[n] == Rest(s, path)(n))
  {
    hide Rest, Table, Response;
    RowBound(i, M, s.L);
    var o := i * s.L;
    var rind := v;
    var sign := 1.0;
    if rind >= s.K {
      sign := -1.0;
      rind := rind - s.K;
    }
    TableIsWeighted(s);
    for m := 0 to s.L
      invariant forall n :: 0 <= n < o ==> t[n] == Rest(s, path)(n)
      invariant forall n :: o <= n < o + m ==> t[n] == Rest(s, path + [v])(n)
      invariant forall n :: o + m <= n < M * s.L ==> t[n] == Rest(s, path)(n)
    {
      EntryInBook(rind, s.K, s.L, m, |resp|);
      RestOneMore(s, path, v, m, o);
      ResponseAt(s, resp, rind, m);
      if sign > 0.0 {
        t[o + m] := t[o + m] - resp[rind * s.L + m];
      } else {
        t[o + m] := t[o + m] + resp[rind * s.L + m];
      }
    }
    forall n | 0 <= n < o
      ensures t[n] == Rest(s, path + [v])(n)
    {
      RestStep(s, path, v, n);
      AddedEarlier(s, v, o, n);
    }
  }

  /** One codeword at a time, each the best after those before it; what is left
      of the target is the exact residual. */
  method SearchN1(s: Setup, M: nat) returns (path: seq<int>, t: array<real>)
    requires Proper(s, M) && M >= 1 && s.K >= 1
    ensures PathOk(s, M, path) && Greedy(s, path)
    ensures fresh(t) && t.Length == M * s.L && forall n :: 0 <= n < M * s.L ==> t[n] == Rest(s, path)(n)
  {
    hide Table, Rest, Greedy, BestNext, Label;
    AtLeastRow(s, M);
    var resp, E := ComputeWeightedCodebook(s);
    var respTable, energies := resp[..], E[..];
    EnergiesHere(s, energies);
    t := new real[M * s.L];
    forall n | 0 <= n < M * s.L {
      t[n] := s.target[n];
    }
    path := [];
    StartN1(s, M, t[..]);
    for i := 0 to M
      modifies t
      invariant PathOk(s, i, path) && Greedy(s, path)
      invariant forall n :: 0 <= n < M * s.L ==> t[n] == Rest(s, path)(n)
    {
      RowBound(i, M, s.L);
      var x := t[i * s.L..i * s.L + s.L];
      IsAhead(s, path, x);
      var v := Nearest(s, path, x, respTable, energies);
      GreedySnoc(s, path, v);
      SubtractHere(s, M, path, i, v, respTable, t);
      SubtractTail(s, M, path, i, v, t);
      path := path + [v];
    }
  }

  lemma StartN1(s: Setup, M: nat, t: seq<real>)
    requires Proper(s, M) && t == s.target
    ensures PathOk(s, 0, []) && Greedy(s, []) && forall n :: 0 <= n < |t| ==> t[n] == Rest(s, [])(n)
  {
  }

  lemma IsAhead(s: Setup, path: seq<int>, x: seq<real>)
    requires |x| == s.L && forall m :: 0 <= m < s.L ==> x[m] == Rest(s, path)(|path| * s.L + m)
    ensures x == Ahead(s, path)
  {
    hide Rest;
  }

  method Nearest(s: Setup, ghost path: seq<int>, x: seq<real>, resp: seq<real>, E: seq<real>) returns (v: int)
    requires s.L >= 1 && s.K >= 1 && x == Ahead(s, path) && resp == Table(s) && Energies(s, E)
    ensures Label(s, v) && BestNext(s, path, v)
  {
    hide Table, Ahead, Rest, BestNext, Label;
    var best_index, best_dist := new int[1], new real[1];
    ghost var idx;
    if s.sign {
      idx := VqNbestSign(x, resp, s.L, s.K, E, 1, best_index, best_dist);
    } else {
      idx := VqNbest(x, resp, s.L, s.K, E, 1, best_index, best_dist);
    }
    FirstIsBest(s, path, E, idx);
    v := best_index[0];
  }

  // --------------------------------------------------- packing and emitting

  /** The packed indices of a path, w bits each. */
  function IndexBits(path: seq<int>, w: nat): (b: seq<bool>)
    ensures |b| == Times(|path|, w)
  {
    if path == [] then assert Times(0, w) == 0; [] else
      assert Times(|path|, w) == Times(|path| - 1, w) + w;
      IndexBits(path[..|path| - 1], w) + BitsOf(path[|path| - 1], w)
  }

  method PackIndices(bits: SpeexBits, path: seq<int>, w: nat)
    requires bits.Writing() && bits.owner && w <= 32
    modifies bits, bits.chars
    ensures bits.Writing() && (bits.chars == old(bits.chars) || fresh(bits.chars))
    ensures bits.Contents() == old(bits.Contents()) + IndexBits(path, w)
  {
    hide BitsOf, BitsIn, Bit;
    ghost var before := bits.Contents();
    assert path[..0] == [] && before + IndexBits([], w) == before;
    for i := 0 to |path|
      invariant bits.Writing() && (bits.chars == old(bits.chars) || fresh(bits.chars))
      invariant bits.Contents() == before + IndexBits(path[..i], w)
    {
      bits.Pack(path[i], w);
      IndexSnoc(before, path, i, w);
    }
    assert path[..|path|] == path;
  }

  lemma IndexSnoc(b: seq<bool>, path: seq<int>, i: nat, w: nat)
    requires i < |path|
    ensures b + IndexBits(path[..i], w) + BitsOf(path[i], w) == b + IndexBits(path[..i + 1], w)
  {
    hide BitsOf;
    assert path[..i + 1][..i] == path[..i];
  }

  /** e: the excitation of the path. */
  method BuildExcitation(s: Setup, M: nat, path: seq<int>) returns (e: array<real>)
    requires Proper(s, M) && PathOk(s, M, path)
    ensures fresh(e) && e.Length == M * s.L && e[..] == Exc(s, path)
  {
    hide Word;
    e := new real[M * s.L];
    for i := 0 to M
      invariant 0 <= i * s.L <= M * s.L && e[..i * s.L] == Exc(s, path[..i])
    {
      RowBound(i, M, s.L);
      ghost var front := Exc(s, path[..i]);
      for j := 0 to s.L
        invariant e[..i * s.L] == front
        invariant forall m :: 0 <= m < j ==> e[i * s.L + m] == Word(s, path[i], m)
      {
        var g := CodeValue(s, path[i], j);
        e[s.L * i + j] := g;
      }
      ExcPrefix(s, path, i);
      assert e[..(i + 1) * s.L] == front + seq(s.L, m => Word(s, path[i], m));
    }
    assert path[..M] == path;
  }

  lemma ExcPrefix(s: Setup, path: seq<int>, i: nat)
    requires i < |path|
    ensures Exc(s, path[..i + 1]) == Exc(s, path[..i]) + seq(s.L, m => Word(s, path[i], m))
  {
    assert path[..i + 1] == path[..i] + [path[i]];
    ExcStep(s, path[..i], path[i]);
  }

  /** exc += e */
  method AddTo(exc: array<real>, e: seq<real>)
    requires |e| <= exc.Length
    modifies exc
    ensures forall j :: 0 <= j < |e| ==> exc[j] == old(exc[j]) + e[j]
    ensures exc[|e|..] == old(exc[|e|..])
  {
    for j := 0 to |e|
      invariant forall k :: 0 <= k < j ==> exc[k] == old(exc[k]) + e[k]
      invariant forall k :: j <= k < exc.Length ==> exc[k] == old(exc[k])
    {
      exc[j] := exc[j] + e[j];
    }
  }

  /** target -= the synthesis of e */
  method UpdateTarget(target: array<real>, ak: array<real>, awk1: array<real>, awk2: array<real>, e: seq<real>, p: nat)
    returns (ghost y: seq<real>)
    requires |e| == target.Length && 1 <= p && ak.Length == awk1.Length == awk2.Length == p
    modifies target
    ensures |y| == |e| && Synthesised(old(ak[..]), old(awk1[..]), old(awk2[..]), Sig(e), Sig(y), |e|)
    ensures forall j :: 0 <= j < |e| ==> target[j] == old(target[j]) - y[j]
  {
    hide Synthesised;
    var nsf := |e|;
    ghost var a0, a1, a2 := ak[..], awk1[..], awk2[..];
    var r2 := new real[nsf];
    forall j | 0 <= j < nsf {
      r2[j] := e[j];
    }
    assert r2[..nsf] == e;
    SynPercepZero16(r2, ak, awk1, awk2, r2, nsf, p);
    y := r2[..nsf];
    assert ak[..] == a0 && awk1[..] == a1 && awk2[..] == a2;
    for j := 0 to nsf
      modifies target
      invariant forall k :: 0 <= k < j ==> target[k] == old(target[k]) - y[k]
      invariant forall k :: j <= k < nsf ==> target[k] == old(target[k])
    {
      assert r2[j] == y[j];
      target[j] := target[j] - r2[j];
    }
  }

  /** How many paths the search keeps. */
  function BeamWidth(complexity: int): (N: nat)
    ensures 1 <= N <= 6
  {
    var c := if complexity > 10 then 10 else complexity;
    // 2c / 3, truncated toward zero
    if c < 3 then 1 else 2 * c / 3
  }

  /** Three paths for every two steps of complexity, up to 10, and at least
      one. */
  lemma WidthGrows(complexity: int, k: int)
    requires k >= 2
    ensures k <= BeamWidth(complexity) <==> 3 * k <= 2 * complexity && k <= 6
  {
  }

  /** path heads the last of a run of beams that starts from nothing. */
  ghost predicate BestOfBeam(s: Setup, N: nat, M: nat, beams: seq<Beam>, path: seq<int>)
    requires s.L >= 1
  {
    && BeamRun(s, N, M, beams) && beams[0].paths == seq(N, _ => [])
    && beams[M].paths != [] && beams[M].paths[0] == path
  }

  lemma FirstOfBeam(s: Setup, N: nat, M: nat, beams: seq<Beam>, path: seq<int>)
    requires s.L >= 1 && BeamRun(s, N, M, beams) && beams[0].paths == seq(N, _ => [])
    requires beams[M].paths != [] && beams[M].paths[0] == path
    ensures BestOfBeam(s, N, M, beams, path)
  {
  }

  /** split_cb_search_shape_sign: packs one path of codewords and adds its
      excitation. The distance the search kept is exactly half the squared
      norm of the target less the filtered excitation. */
  method SplitCbSearchShapeSign(target: array<real>, ak: array<real>, awk1: array<real>, awk2: array<real>,
                                shape_cb: seq<int>, subvect_size: nat, nb_subvect: nat, shape_bits: nat, have_sign: bool,
                                p: nat, exc: array<real>, r: seq<real>, bits: SpeexBits, complexity: int, update_target: bool)
    returns (ghost path: seq<int>, ghost dist: real, ghost y: seq<real>, ghost beams: seq<Beam>)
    requires 1 <= subvect_size && 1 <= nb_subvect && shape_bits <= 30 && BeamWidth(complexity) <= Pow2(shape_bits)
    requires |shape_cb| == Pow2(shape_bits) * subvect_size
    requires target.Length == |r| == exc.Length == nb_subvect * subvect_size && target != exc
    requires 1 <= p && ak.Length == awk1.Length == awk2.Length == p && exc != ak && exc != awk1 && exc != awk2
    requires bits.Writing() && bits.owner && Apart(bits, target, exc, ak, awk1, awk2)
    modifies target, exc, bits, bits.chars
    ensures var s := Setup(old(target[..]), r, shape_cb, subvect_size, Pow2(shape_bits), have_sign);
      && PathOk(s, nb_subvect, path)
      && (forall j :: 0 <= j < exc.Length ==> exc[j] == old(exc[j]) + Exc(s, path)[j])
      && (dist < VERY_LARGE ==> dist == 0.5 * SlowError(old(target[..]), r, Exc(s, path)))
      && (BeamWidth(complexity) == 1 ==> Greedy(s, path))
      && (BeamWidth(complexity) >= 2 ==> BestOfBeam(s, BeamWidth(complexity), nb_subvect, beams, path))
      && (update_target ==> Synthesised(old(ak[..]), old(awk1[..]), old(awk2[..]), Sig(Exc(s, path)), Sig(y), |y|))
    ensures |y| == if update_target then target.Length else 0
    ensures forall j :: 0 <= j < target.Length ==> target[j] == old(target[j]) - At(y, j)
    ensures bits.Writing() && (bits.chars == old(bits.chars) || fresh(bits.chars))
    ensures bits.Contents() == old(bits.Contents()) + IndexBits(path, shape_bits + if have_sign then 1 else 0)
  {
    hide Pow2, Synthesised, Greedy, SlowError, BestOfBeam, Exc, IndexBits, BeamWidth, BitsIn, Bit, BeamRun, Cost, Label;
    var s := Setup(target[..], r, shape_cb, subvect_size, Pow2(shape_bits), have_sign);
    var N := BeamWidth(complexity);
    var found;
    beams := [];
    if N == 1 {
      var t;
      found, t := SearchN1(s, nb_subvect);
      dist := Cost(s, found);
    } else {
      var d;
      found, d, beams := BeamSearch(s, nb_subvect, N);
      dist := d;
      FirstOfBeam(s, N, nb_subvect, beams, found);
    }
    path := found;
    DistIsSlow(s, path, dist);
    y := Emit(s, nb_subvect, found, target, ak, awk1, awk2, p, exc, bits, shape_bits + if have_sign then 1 else 0, update_target);
  }

  /** The byte buffer is none of the sample arrays, as their types already say. */
  ghost predicate Apart(bits: SpeexBits, target: array<real>, exc: array<real>, ak: array<real>, awk1: array<real>, awk2: array<real>)
    reads bits
  {
    var o: object := bits.chars;
    o != target && o != exc && o != ak && o != awk1 && o != awk2
  }

  /** Saves the indices, puts the excitation back together and updates the
      target. */
  method Emit(s: Setup, M: nat, path: seq<int>, target: array<real>, ak: array<real>, awk1: array<real>, awk2: array<real>,
              p: nat, exc: array<real>, bits: SpeexBits, w: nat, update_target: bool) returns (ghost y: seq<real>)
    requires Proper(s, M) && PathOk(s, M, path) && w <= 32
    requires target.Length == exc.Length == M * s.L && target != exc
    requires 1 <= p && ak.Length == awk1.Length == awk2.Length == p && exc != ak && exc != awk1 && exc != awk2
    requires bits.Writing() && bits.owner && Apart(bits, target, exc, ak, awk1, awk2)
    modifies target, exc, bits, bits.chars
    ensures |Exc(s, path)| == exc.Length && forall j :: 0 <= j < exc.Length ==> exc[j] == old(exc[j]) + Exc(s, path)[j]
    ensures |y| == if update_target then target.Length else 0
    ensures update_target ==> Synthesised(old(ak[..]), old(awk1[..]), old(awk2[..]), Sig(Exc(s, path)), Sig(y), |y|)
    ensures forall j :: 0 <= j < target.Length ==> target[j] == old(target[j]) - At(y, j)
    ensures bits.Writing() && (bits.chars == old(bits.chars) || fresh(bits.chars))
    ensures bits.Contents() == old(bits.Contents()) + IndexBits(path, w)
  {
    hide Synthesised, Exc, IndexBits, BitsIn, Bit, Label;
    ghost var a0, a1, a2 := ak[..], awk1[..], awk2[..];
    PackIndices(bits, path, w);
    assert ak[..] == a0 && awk1[..] == a1 && awk2[..] == a2;
    var e := BuildExcitation(s, M, path);
    var emitted := e[..];
    AddTo(exc, emitted);
    assert ak[..] == a0 && awk1[..] == a1 && awk2[..] == a2;
    y := [];
    if update_target {
      y := UpdateTarget(target, ak, awk1, awk2, emitted, p);
    }
  }

  lemma DistIsSlow(s: Setup, path: seq<int>, dist: real)
    requires DistOk(s, path, dist) || dist == Cost(s, path)
    ensures dist < VERY_LARGE ==> dist == 0.5 * SlowError(s.target, s.r, Exc(s, path))
  {
    CostIsSlowError(s, path);
    hide Cost, SlowError;
  }

  /** When r is the impulse response of the synthesis filters, the updated
      target is the residual, so the distance is half its squared norm. */
  lemma UpdatedTarget(s: Setup, ak: seq<real>, awk1: seq<real>, awk2: seq<real>, path: seq<int>, y: seq<real>, target: seq<real>)
    requires |s.r| == |s.target| == |target| == |y| == |Exc(s, path)|
    requires Synthesised(ak, awk1, awk2, Impulse(), Sig(s.r), |s.r|)
    requires Synthesised(ak, awk1, awk2, Sig(Exc(s, path)), Sig(y), |y|)
    requires forall j :: 0 <= j < |target| ==> target[j] == s.target[j] - y[j]
    ensures Cost(s, path) == 0.5 * Norm(target, |target|)
  {
    hide Synthesised, Exc, Cost;
    var e := Exc(s, path);
    CausalSig(s.r);
    CausalSig(y);
    SynthesisIsConvolution(ak, awk1, awk2, Sig(s.r), e, Sig(y), |y|);
    hide Conv;
    forall n | 0 <= n < |target|
      ensures target[n] == Residual(s.target, s.r, e)(n)
    {
      assert Sig(y)(n) == y[n];
    }
    CostIsSlowError(s, path);
    NormIsSum(target, Residual(s.target, s.r, e), |target|);
  }

  lemma CausalSig(x: seq<real>)
    ensures Causal(Sig(x))
  {
  }

  lemma {:induction false} NormIsSum(t: seq<real>, f: Signal, n: nat)
    requires n <= |t| && forall k :: 0 <= k < n ==> t[k] == f(k)
    ensures Norm(t, n) == Sum(n, Square(f))
  {
    if n > 0 {
      NormIsSum(t, f, n - 1);
    }
  }

  // ------------------------------------------------------------ the decoder

  /** The path a decoder reads from packed indices. */
  function Indices(b: seq<bool>, w: nat, M: nat): (path: seq<int>)
    requires Times(M, w) <= |b|
    ensures |path| == M
  {
    if M == 0 then []
    else
      assert Times(M, w) == Times(M - 1, w) + w;
      Indices(b[..Times(M - 1, w)], w, M - 1) + [ValueOf(b[Times(M - 1, w)..Times(M, w)])]
  }

  ghost predicate AllFit(path: seq<int>, w: nat) {
    forall k :: 0 <= k < |path| ==> 0 <= path[k] < Pow2(w)
  }

  lemma FitFront(path: seq<int>, w: nat)
    requires path != [] && AllFit(path, w)
    ensures AllFit(path[..|path| - 1], w) && 0 <= path[|path| - 1] < Pow2(w)
  {
  }

  /** Reading packed indices gives them back. */
  lemma {:induction false} IndicesRoundTrip(path: seq<int>, w: nat)
    requires AllFit(path, w)
    ensures Indices(IndexBits(path, w), w, |path|) == path
  {
    if path == [] {
      NoneBack(w);
    } else {
      hide *;
      var n := |path| - 1;
      FitFront(path, w);
      IndicesRoundTrip(path[..n], w);
      assert path == path[..n] + [path[n]];
      OneMoreBack(path[..n], path[n], w);
    }
  }

  lemma NoneBack(w: nat)
    ensures Times(0, w) == 0 && Indices(IndexBits([], w), w, 0) == []
  {
  }

  lemma OneMoreBack(front: seq<int>, v: int, w: nat)
    requires Indices(IndexBits(front, w), w, |front|) == front && 0 <= v < Pow2(w)
    ensures Indices(IndexBits(front + [v], w), w, |front + [v]|) == front + [v]
  {
    hide *;
    var path := front + [v];
    assert path[..|front|] == front;
    IndexSlices(path, w);
    IndicesStep(IndexBits(path, w), w, |path|);
    ValueBack(v, w);
  }

  lemma ValueBack(v: int, w: nat)
    requires 0 <= v < Pow2(w)
    ensures ValueOf(BitsOf(v, w)) == v
  {
    hide *;
    ValueOfBits(v, w);
    SmallValue(v, Pow2(w));
  }

  lemma IndicesStep(b: seq<bool>, w: nat, M: nat)
    requires M > 0 && Times(M - 1, w) <= Times(M, w) <= |b|
    ensures Indices(b, w, M) == Indices(b[..Times(M - 1, w)], w, M - 1) + [ValueOf(b[Times(M - 1, w)..Times(M, w)])]
  {
    hide ValueOf;
  }

  lemma IndexSlices(path: seq<int>, w: nat)
    requires path != []
    ensures var n := |path| - 1; var b := IndexBits(path, w);
      && Times(n, w) <= Times(|path|, w) == |b|
      && b[..Times(n, w)] == IndexBits(path[..n], w) && b[Times(n, w)..Times(|path|, w)] == BitsOf(path[n], w)
  {
    hide BitsOf;
    LengthStep(|path| - 1, w);
  }

  lemma SmallValue(v: int, p: int)
    requires 0 <= v < p
    ensures v % p == v
  {
  }

  /** The indices a search packs fit their field, so the decoder, reading them
      back, adds the very excitation the encoder added. */
  lemma DecoderAgrees(s: Setup, M: nat, shape_bits: nat, path: seq<int>)
    requires s.K == Pow2(shape_bits) && PathOk(s, M, path)
    ensures var w := shape_bits + if s.sign then 1 else 0;
      Exc(s, Indices(IndexBits(path, w), w, M)) == Exc(s, path)
  {
    var w := shape_bits + if s.sign then 1 else 0;
    LabelsFit(s, M, shape_bits, path);
    hide *;
    IndicesRoundTrip(path, w);
  }

  lemma LabelsFit(s: Setup, M: nat, shape_bits: nat, path: seq<int>)
    requires s.K == Pow2(shape_bits) && PathOk(s, M, path)
    ensures |path| == M && AllFit(path, shape_bits + if s.sign then 1 else 0)
  {
  }

  /** The sign and index at the front of u, as one number, and what follows:
      zeros and nothing where the bits have run out. */
  function SignRead(u: seq<bool>, sign: bool): nat {
    if sign then Field(u, 1) else 0
  }

  function AfterSign(u: seq<bool>, sign: bool): seq<bool> {
    if sign then FieldRest(u, 1) else u
  }

  function FrontLabel(u: seq<bool>, shape_bits: nat, sign: bool): int {
    SignRead(u, sign) * Pow2(shape_bits) + Field(AfterSign(u, sign), shape_bits)
  }

  function AfterLabel(u: seq<bool>, shape_bits: nat, sign: bool): seq<bool> {
    FieldRest(AfterSign(u, sign), shape_bits)
  }

  /** The labels read from u, and what follows them. */
  function AfterLabels(u: seq<bool>, shape_bits: nat, sign: bool, M: nat): seq<bool> {
    if M == 0 then u else AfterLabel(AfterLabels(u, shape_bits, sign, M - 1), shape_bits, sign)
  }

  function LabelsRead(u: seq<bool>, shape_bits: nat, sign: bool, M: nat): (path: seq<int>)
    ensures |path| == M
  {
    if M == 0 then []
    else LabelsRead(u, shape_bits, sign, M - 1) + [FrontLabel(AfterLabels(u, shape_bits, sign, M - 1), shape_bits, sign)]
  }

  function Width(shape_bits: nat, sign: bool): nat {
    shape_bits + if sign then 1 else 0
  }

  lemma LabelIsValue(u: seq<bool>, shape_bits: nat, sign: bool)
    requires Width(shape_bits, sign) <= |u|
    ensures FrontLabel(u, shape_bits, sign) == ValueOf(u[..Width(shape_bits, sign)])
    ensures AfterLabel(u, shape_bits, sign) == u[Width(shape_bits, sign)..]
  {
    hide ValueOf, Pow2;
    if sign {
      OneBit(u[..1]);
      Fields.SignAndIndex(u[..shape_bits + 1]);
      Parts(u, shape_bits);
    }
  }

  /** A packet that holds them all yields the numbers of its consecutive fields. */
  lemma {:induction false} EnoughLabels(u: seq<bool>, shape_bits: nat, sign: bool, M: nat)
    requires M * Width(shape_bits, sign) <= |u|
    ensures 0 <= M * Width(shape_bits, sign)
    ensures LabelsRead(u, shape_bits, sign, M) == Indices(u[..M * Width(shape_bits, sign)], Width(shape_bits, sign), M)
    ensures AfterLabels(u, shape_bits, sign, M) == u[M * Width(shape_bits, sign)..]
  {
    var w := Width(shape_bits, sign);
    hide ValueOf, FrontLabel, AfterLabel, Width, Pow2;
    if M > 0 {
      RowBound(M - 1, M, w);
      EnoughLabels(u, shape_bits, sign, M - 1);
      LabelIsValue(u[(M - 1) * w..], shape_bits, sign);
      NextIndex(u, w, M - 1, ValueOf(u[(M - 1) * w..][..w]));
    } else {
      NoLabels(u, w);
    }
  }

  lemma NoLabels(u: seq<bool>, w: nat)
    ensures 0 * w == 0 && Indices(u[..0], w, 0) == []
  {
  }

  /** One sign and index. */
  method UnpackIndex(bits: SpeexBits, shape_bits: nat, have_sign: bool) returns (sign: nat, ind: nat)
    requires bits.Valid() && shape_bits <= 30
    modifies bits
    ensures bits.Valid() && bits.chars == old(bits.chars)
    ensures sign * Pow2(shape_bits) + ind == FrontLabel(old(Left(bits)), shape_bits, have_sign)
    ensures Left(bits) == AfterLabel(old(Left(bits)), shape_bits, have_sign)
    ensures bits.overflow == (old(bits.overflow) || Width(shape_bits, have_sign) > |old(Left(bits))|)
    ensures sign <= 1 && ind < Pow2(shape_bits) && (sign == 1 ==> have_sign)
  {
    hide Pow2, Field, SpeexBits.Unread;
    sign := 0;
    if have_sign {
      sign := ReadField(bits, 1);
      assert Pow2(1) == 2 by { TwoToOne(); }
    }
    ind := ReadField(bits, shape_bits);
  }

  lemma TwoToOne()
    ensures Pow2(1) == 2
  {
  }

  lemma Parts(u: seq<bool>, n: nat)
    requires |u| >= n + 1
    ensures u[..n + 1][..1] == u[..1] && u[..n + 1][1..] == u[1..][..n]
    ensures u[1..][n..] == u[n + 1..]
  {
  }

  /** split_cb_shape_sign_unquant: the decoder adds the excitation of the labels
      it reads, which are zero once a packet has run out. */
  method SplitCbShapeSignUnquant(exc: array<real>, s: Setup, M: nat, shape_bits: nat, bits: SpeexBits)
    returns (ghost path: seq<int>)
    requires Proper(s, M) && s.K == Pow2(shape_bits) && shape_bits <= 30
    requires exc.Length == M * s.L && bits.chars as object != exc
    requires bits.Valid()
    modifies exc, bits
    ensures bits.Valid() && bits.overflow == (old(bits.overflow) || M * Width(shape_bits, s.sign) > |old(Left(bits))|)
    ensures path == LabelsRead(old(Left(bits)), shape_bits, s.sign, M)
    ensures Left(bits) == AfterLabels(old(Left(bits)), shape_bits, s.sign, M)
    ensures PathOk(s, M, path) && forall j :: 0 <= j < exc.Length ==> exc[j] == old(exc[j]) + Exc(s, path)[j]
  {
    hide PathOk, LabelsRead, AfterLabels, Exc, BitsIn, ValueOf, Pow2, SpeexBits.Unread;
    var signs, ind;
    signs, ind, path := ReadIndices(s, M, shape_bits, bits);
    AddWords(exc, s, M, signs, ind, path);
  }

  /** What has been read of a path. */
  ghost predicate ReadPath(s: Setup, shape_bits: nat, i: nat, u: seq<bool>, signs: seq<nat>, ind: seq<nat>, path: seq<int>, left: seq<bool>) {
    && |ind| == |signs| == |path| == i && left == AfterLabels(u, shape_bits, s.sign, i)
    && path == LabelsRead(u, shape_bits, s.sign, i) && PathOk(s, i, path)
    && forall k :: 0 <= k < i ==> signs[k] <= 1 && ind[k] < s.K && path[k] == signs[k] * s.K + ind[k]
  }

  /** The reader has overflowed exactly if it did before or i fields are too many. */
  ghost predicate RanOut(u: seq<bool>, w: nat, i: nat, before: bool, now: bool, left: seq<bool>) {
    && now == (before || i * w > |u|)
    && (!now ==> 0 <= i * w && left == u[i * w..])
    && (now ==> left == [])
  }

  lemma RanOutStep(u: seq<bool>, w: nat, i: nat, before: bool, now: bool, left: seq<bool>, now': bool, left': seq<bool>)
    requires RanOut(u, w, i, before, now, left) && now' == (now || w > |left|)
    requires left' == if now' then [] else left[w..]
    ensures RanOut(u, w, i + 1, before, now', left')
  {
    assert i * w + w == (i + 1) * w >= i * w >= 0;
  }

  lemma RanOutStart(u: seq<bool>, w: nat, before: bool)
    requires before ==> u == []
    ensures RanOut(u, w, 0, before, before, u)
  {
  }

  method ReadIndices(s: Setup, M: nat, shape_bits: nat, bits: SpeexBits)
    returns (signs: seq<nat>, ind: seq<nat>, ghost path: seq<int>)
    requires s.K == Pow2(shape_bits) && shape_bits <= 30
    requires bits.Valid()
    modifies bits
    ensures bits.Valid() && bits.chars == old(bits.chars)
    ensures bits.overflow == (old(bits.overflow) || M * Width(shape_bits, s.sign) > |old(Left(bits))|)
    ensures ReadPath(s, shape_bits, M, old(Left(bits)), signs, ind, path, Left(bits))
  {
    hide Pow2, ReadPath, FrontLabel, Width, RanOut, AfterLabel, SpeexBits.Unread;
    ghost var w := Width(shape_bits, s.sign);
    ghost var u := Left(bits);
    ind, signs, path := [], [], [];
    NoIndices(s, u, shape_bits);
    RanOutStart(u, w, bits.overflow);
    for i := 0 to M
      invariant bits.Valid() && bits.chars == old(bits.chars)
      invariant RanOut(u, w, i, old(bits.overflow), bits.overflow, Left(bits))
      invariant ReadPath(s, shape_bits, i, u, signs, ind, path, Left(bits))
    {
      ghost var left, over := Left(bits), bits.overflow;
      var sign, index := UnpackIndex(bits, shape_bits, s.sign);
      AfterFits(left, shape_bits, s.sign);
      RanOutStep(u, w, i, old(bits.overflow), over, left, bits.overflow, Left(bits));
      ReadMore(s, shape_bits, i, u, signs, ind, path, left, sign, index);
      signs, ind := signs + [sign], ind + [index];
      path := path + [sign * s.K + index];
    }
    OverflowIs(u, w, M, old(bits.overflow), bits.overflow, Left(bits));
  }

  lemma AfterFits(u: seq<bool>, shape_bits: nat, sign: bool)
    ensures Width(shape_bits, sign) <= |u| ==> AfterLabel(u, shape_bits, sign) == u[Width(shape_bits, sign)..]
  {
  }

  lemma OverflowIs(u: seq<bool>, w: nat, M: nat, before: bool, now: bool, left: seq<bool>)
    requires RanOut(u, w, M, before, now, left)
    ensures now == (before || M * w > |u|)
  {
  }

  lemma ReadMore(s: Setup, shape_bits: nat, i: nat, u: seq<bool>, signs: seq<nat>, ind: seq<nat>, path: seq<int>, left: seq<bool>, sign: nat, index: nat)
    requires ReadPath(s, shape_bits, i, u, signs, ind, path, left)
    requires sign <= 1 && index < s.K && (sign == 1 ==> s.sign) && FrontLabel(left, shape_bits, s.sign) == sign * s.K + index
    ensures ReadPath(s, shape_bits, i + 1, u, signs + [sign], ind + [index], path + [sign * s.K + index], AfterLabel(left, shape_bits, s.sign))
  {
    hide PathOk, FrontLabel, AfterLabel;
    PathSnoc(s, path, sign, index);
  }

  lemma NoIndices(s: Setup, u: seq<bool>, shape_bits: nat)
    ensures ReadPath(s, shape_bits, 0, u, [], [], [], u)
  {
  }

  lemma NextIndex(u: seq<bool>, w: nat, i: nat, v: nat)
    requires 0 <= i * w && i * w + w == (i + 1) * w <= |u| && v == ValueOf(u[i * w..][..w])
    ensures Indices(u[..(i + 1) * w], w, i + 1) == Indices(u[..i * w], w, i) + [v]
    ensures u[i * w..][w..] == u[(i + 1) * w..]
  {
    hide ValueOf;
    var b := u[..(i + 1) * w];
    assert b[..i * w] == u[..i * w];
    assert b[i * w..(i + 1) * w] == u[i * w..][..w];
  }

  lemma PathSnoc(s: Setup, path: seq<int>, sign: nat, index: nat)
    requires PathOk(s, |path|, path) && sign <= 1 && index < s.K && (sign == 1 ==> s.sign)
    ensures PathOk(s, |path| + 1, path + [sign * s.K + index])
  {
  }

  /** exc += the codewords */
  method AddWords(exc: array<real>, s: Setup, M: nat, signs: seq<nat>, ind: seq<nat>, ghost path: seq<int>)
    requires Proper(s, M) && exc.Length == M * s.L && |ind| == |signs| == M && PathOk(s, M, path)
    requires forall k :: 0 <= k < M ==> signs[k] <= 1 && ind[k] < s.K && path[k] == signs[k] * s.K + ind[k]
    modifies exc
    ensures forall j :: 0 <= j < exc.Length ==> exc[j] == old(exc[j]) + Exc(s, path)[j]
  {
    hide Word, Exc, Label;
    ghost var x0 := exc[..];
    for i := 0 to M
      invariant 0 <= i * s.L <= M * s.L
      invariant forall k :: 0 <= k < i * s.L ==> exc[k] == x0[k] + Exc(s, path[..i])[k]
      invariant forall k :: i * s.L <= k < M * s.L ==> exc[k] == x0[k]
    {
      RowBound(i, M, s.L);
      var sign := if signs[i] != 0 then -1.0 else 1.0;
      for j := 0 to s.L
        invariant forall k :: 0 <= k < i * s.L ==> exc[k] == x0[k] + Exc(s, path[..i])[k]
        invariant forall m :: 0 <= m < j ==> exc[i * s.L + m] == x0[i * s.L + m] + Word(s, path[i], m)
        invariant forall k :: i * s.L + j <= k < M * s.L ==> exc[k] == x0[k]
      {
        EntryInBook(ind[i], s.K, s.L, j, |s.cb|);
        WordIs(s, path[i], signs[i], ind[i], j);
        exc[i * s.L + j] := exc[i * s.L + j] + sign * 0.03125 * s.cb[ind[i] * s.L + j] as real;
      }
      WordsSoFar(s, M, path, i, x0, exc[..]);
    }
    assert path[..M] == path;
  }

  lemma WordIs(s: Setup, v: int, sign: nat, index: nat, m: nat)
    requires |s.cb| == s.K * s.L && index < s.K && sign <= 1 && v == sign * s.K + index && m < s.L
    requires 0 <= index * s.L + m < |s.cb|
    ensures Word(s, v, m) == (if sign != 0 then -1.0 else 1.0) * 0.03125 * s.cb[index * s.L + m] as real
  {
  }

  lemma WordsSoFar(s: Setup, M: nat, path: seq<int>, i: nat, x0: seq<real>, x: seq<real>)
    requires i < M == |path| && |x0| == |x| == M * s.L && 0 <= i * s.L && i * s.L + s.L == (i + 1) * s.L <= M * s.L
    requires forall k :: 0 <= k < i * s.L ==> x[k] == x0[k] + Exc(s, path[..i])[k]
    requires forall m :: 0 <= m < s.L ==> x[i * s.L + m] == x0[i * s.L + m] + Word(s, path[i], m)
    ensures forall k :: 0 <= k < (i + 1) * s.L ==> x[k] == x0[k] + Exc(s, path[..i + 1])[k]
  {
    hide Word, Exc;
    ExcPrefix(s, path, i);
    forall k | i * s.L <= k < (i + 1) * s.L
      ensures x[k] == x0[k] + Exc(s, path[..i + 1])[k]
    {
      var m := k - i * s.L;
      assert x[i * s.L + m] == x0[i * s.L + m] + Word(s, path[i], m);
    }
  }
}
