/** Quantised line spectral pairs, as in quant_lsp.c in fixed point. Values are
    16-bit and distances 32-bit, and both wrap. */
module QuantLsp {
  import opened IntArith
  import opened BitSeqs
  import opened Bits

  const VERY_LARGE32 := 2147483647

  /** A cast to spx_word16_t. */
  function Wrap(v: int): (w: int)
    ensures -32768 <= w < 32768
  {
    (v + 32768) % 65536 - 32768
  }

  predicate Fits16(v: int) {
    -32768 <= v < 32768
  }

  /** What Wrap takes away is a multiple of 65536. */
  lemma WrapDrops(v: int)
    ensures Wrap(v) == v - 65536 * ((v + 32768) / 65536)
  {
  }

  lemma SameWrap(u: int, v: int, k: int)
    requires u == v + 65536 * k
    ensures Wrap(u) == Wrap(v)
  {
    ModUnique(u + 32768, 65536, (v + 32768) / 65536 + k, (v + 32768) % 65536);
  }

  lemma WrapMinus(a: int, b: int)
    ensures Wrap(Wrap(a) - b) == Wrap(a - b)
  {
    WrapDrops(a);
    SameWrap(Wrap(a) - b, a - b, -((a + 32768) / 65536));
  }

  lemma WrapTwice(a: int)
    ensures Wrap(2 * Wrap(a)) == Wrap(2 * a)
  {
    WrapDrops(a);
    SameWrap(2 * Wrap(a), 2 * a, -2 * ((a + 32768) / 65536));
  }

  /** A sum kept in spx_word32_t. */
  function Wrap32(v: int): (w: int)
    ensures -2147483648 <= w < 2147483648
    ensures -2147483648 <= v < 2147483648 ==> w == v
  {
    (v + 2147483648) % 4294967296 - 2147483648
  }

  // ------------------------------------------------------------- codebooks

  function At(s: seq<int>, i: int): int {
    if 0 <= i < |s| then s[i] else 0
  }

  /** Value j of entry id. */
  function Entry(cdbk: seq<int>, dim: nat, id: int, j: int): int {
    At(cdbk, Times(id, dim) + j)
  }

  ghost predicate Signed8(cdbk: seq<int>) {
    forall i :: 0 <= i < |cdbk| ==> -128 <= cdbk[i] < 128
  }

  /** The residual of value j against entry id. */
  function Residue(x: seq<int>, from: nat, cdbk: seq<int>, dim: nat, id: int, j: int): int {
    Wrap(At(x, from + j) - 32 * Entry(cdbk, dim, id, j))
  }

  function Square(v: int): int {
    v * v
  }

  /** The squared distance over the first n values, in 32 bits. */
  function Distance(x: seq<int>, from: nat, cdbk: seq<int>, dim: nat, id: int, n: nat): int {
    if n == 0 then 0
    else Wrap32(Distance(x, from, cdbk, dim, id, n - 1) + Square(Residue(x, from, cdbk, dim, id, n - 1)))
  }

  /** The same with weights in Q15, each term rounded down. */
  function WeightedDistance(x: seq<int>, from: nat, weight: seq<int>, cdbk: seq<int>, dim: nat, id: int, n: nat): int {
    if n == 0 then 0
    else
      var d := Square(Residue(x, from, cdbk, dim, id, n - 1));
      Wrap32(WeightedDistance(x, from, weight, cdbk, dim, id, n - 1) + MultQ15(At(weight, n - 1), d))
  }

  function MultQ15(a: int, b: int): int {
    Times(a, b) / 32768
  }

  function Distances(x: seq<int>, from: nat, cdbk: seq<int>, dim: nat): int -> int {
    id => Distance(x, from, cdbk, dim, id, dim)
  }

  function WeightedDistances(x: seq<int>, from: nat, weight: seq<int>, cdbk: seq<int>, dim: nat): int -> int {
    id => WeightedDistance(x, from, weight, cdbk, dim, id, dim)
  }

  /** The lowest of the entries below n nearest by d, or 0 if none is nearer
      than the start value. */
  ghost predicate Nearest(d: int -> int, n: int, id: int) {
    if forall i :: 0 <= i < n ==> d(i) >= VERY_LARGE32 then id == 0
    else 0 <= id < n && (forall i :: 0 <= i < n ==> d(id) <= d(i)) && forall i :: 0 <= i < id ==> d(id) < d(i)
  }

  ghost predicate Best(d: int -> int, n: int, id: int, dist: int) {
    if forall i :: 0 <= i < n ==> d(i) >= VERY_LARGE32 then id == 0 && dist == VERY_LARGE32
    else 0 <= id < n && dist == d(id) < VERY_LARGE32 && (forall i :: 0 <= i < n ==> d(id) <= d(i)) && forall i :: 0 <= i < id ==> d(id) < d(i)
  }

  lemma BestStep(d: int -> int, n: nat, id: int, dist: int)
    requires Best(d, n, id, dist)
    ensures if d(n) < dist then Best(d, n + 1, n, d(n)) else Best(d, n + 1, id, dist)
  {
  }

  lemma BestIsNearest(d: int -> int, n: nat, id: int, dist: int)
    requires Best(d, n, id, dist) && n > 0
    ensures Nearest(d, n, id) && 0 <= id < n
  {
  }

  /** The residuals left by entry id. */
  function Minus(x: seq<int>, from: nat, dim: nat, cdbk: seq<int>, id: int): (y: seq<int>)
    ensures |y| == |x|
  {
    seq(|x|, k requires 0 <= k < |x| => if from <= k < from + dim then Residue(x, from, cdbk, dim, id, k - from) else x[k])
  }

  function Twice(x: seq<int>, from: nat, to: nat): (y: seq<int>)
    ensures |y| == |x|
  {
    seq(|x|, k requires 0 <= k < |x| => if from <= k < to then Wrap(2 * x[k]) else x[k])
  }

  lemma RowFits(i: nat, n: nat, dim: nat)
    requires i < n
    ensures 0 <= Times(i, dim) && Times(i, dim) + dim == Times(i + 1, dim) <= Times(n, dim)
  {
    Monotone(i + 1, n, dim);
  }

  lemma Monotone(i: nat, n: nat, dim: nat)
    requires i <= n
    ensures Times(i, dim) <= Times(n, dim)
  {
  }

  /** MULT16_32_Q15: high and low parts of b apart. */
  lemma MacParts(a: int, b: nat)
    ensures MultQ15(a, b) == a * (b / 32768) + a * (b % 32768) / 32768
  {
    var h, l := b / 32768, b % 32768;
    assert a * b == (a * h) * 32768 + a * l;
    DivShift(a * h, a * l);
  }

  lemma DivShift(q: int, r: int)
    ensures (q * 32768 + r) / 32768 == q + r / 32768
  {
  }

  method RowDistance(x: array<int>, from: nat, cdbk: seq<int>, dim: nat, id: nat, ptr0: nat) returns (dist: int, ptr: nat)
    requires from + dim <= x.Length && ptr0 == Times(id, dim) && ptr0 + dim <= |cdbk|
    ensures dist == Distance(x[..], from, cdbk, dim, id, dim) && ptr == ptr0 + dim
  {
    dist, ptr := 0, ptr0;
    for j := 0 to dim
      invariant ptr == ptr0 + j && dist == Distance(x[..], from, cdbk, dim, id, j)
    {
      var tmp := Wrap(x[from + j] - 32 * cdbk[ptr]);
      ptr := ptr + 1;
      dist := Wrap32(dist + Square(tmp));
    }
  }

  method RowWeightedDistance(x: array<int>, from: nat, weight: seq<int>, cdbk: seq<int>, dim: nat, id: nat, ptr0: nat)
    returns (dist: int, ptr: nat)
    requires from + dim <= x.Length && |weight| >= dim && ptr0 == Times(id, dim) && ptr0 + dim <= |cdbk|
    ensures dist == WeightedDistance(x[..], from, weight, cdbk, dim, id, dim) && ptr == ptr0 + dim
  {
    hide MultQ15, Wrap32;
    dist, ptr := 0, ptr0;
    for j := 0 to dim
      invariant ptr == ptr0 + j && dist == WeightedDistance(x[..], from, weight, cdbk, dim, id, j)
    {
      var tmp := Wrap(x[from + j] - 32 * cdbk[ptr]);
      ptr := ptr + 1;
      var b: int := Square(tmp);
      MacParts(weight[j], b);
      dist := Wrap32(dist + (weight[j] * (b / 32768) + weight[j] * (b % 32768) / 32768));
    }
  }

  method Subtract(x: array<int>, from: nat, cdbk: seq<int>, dim: nat, id: nat)
    requires from + dim <= x.Length && Times(id, dim) >= 0 && Times(id, dim) + dim <= |cdbk|
    modifies x
    ensures x[..] == Minus(old(x[..]), from, dim, cdbk, id)
  {
    ghost var X := x[..];
    hide Wrap, Times;
    for j := 0 to dim
      invariant forall k {:trigger x[k]} :: 0 <= k < x.Length ==>
        x[k] == (if from <= k < from + j then Residue(X, from, cdbk, dim, id, k - from) else X[k])
    {
      assert Residue(X, from, cdbk, dim, id, j) == Wrap(X[from + j] - 32 * cdbk[Times(id, dim) + j]);
      x[from + j] := Wrap(x[from + j] - 32 * cdbk[Times(id, dim) + j]);
    }
  }

  /** lsp_quant: the nearest entry, taken off x in place. */
  method LspQuant(x: array<int>, from: nat, cdbk: seq<int>, nbVec: nat, nbDim: nat) returns (best_id: nat)
    requires nbVec > 0 && from + nbDim <= x.Length && |cdbk| == Times(nbVec, nbDim)
    modifies x
    ensures best_id < nbVec && Nearest(Distances(old(x[..]), from, cdbk, nbDim), nbVec, best_id)
    ensures x[..] == Minus(old(x[..]), from, nbDim, cdbk, best_id)
  {
    hide Best, Nearest, Times, Minus, Distance;
    ghost var X := x[..];
    ghost var d := Distances(X, from, cdbk, nbDim);
    var best_dist := VERY_LARGE32;
    var ptr := 0;
    best_id := 0;
    BestStart(d, nbDim);
    for i := 0 to nbVec
      invariant x[..] == X && ptr == Times(i, nbDim) && 0 <= best_id && Best(d, i, best_id, best_dist)
    {
      RowFits(i, nbVec, nbDim);
      BestStep(d, i, best_id, best_dist);
      var dist;
      dist, ptr := RowDistance(x, from, cdbk, nbDim, i, ptr);
      if dist < best_dist {
        best_dist := dist;
        best_id := i;
      }
    }
    BestIsNearest(d, nbVec, best_id, best_dist);
    RowFits(best_id, nbVec, nbDim);
    Subtract(x, from, cdbk, nbDim, best_id);
  }

  lemma BestStart(d: int -> int, dim: nat)
    ensures Best(d, 0, 0, VERY_LARGE32) && Times(0, dim) == 0
  {
  }

  /** lsp_weight_quant: the same with weighted distances. */
  method LspWeightQuant(x: array<int>, from: nat, weight: seq<int>, cdbk: seq<int>, nbVec: nat, nbDim: nat) returns (best_id: nat)
    requires nbVec > 0 && from + nbDim <= x.Length && |weight| >= nbDim && |cdbk| == Times(nbVec, nbDim)
    modifies x
    ensures best_id < nbVec && Nearest(WeightedDistances(old(x[..]), from, weight, cdbk, nbDim), nbVec, best_id)
    ensures x[..] == Minus(old(x[..]), from, nbDim, cdbk, best_id)
  {
    hide Best, Nearest, Times, Minus, WeightedDistance;
    ghost var X := x[..];
    ghost var d := WeightedDistances(X, from, weight, cdbk, nbDim);
    var best_dist := VERY_LARGE32;
    var ptr := 0;
    best_id := 0;
    BestStart(d, nbDim);
    for i := 0 to nbVec
      invariant x[..] == X && ptr == Times(i, nbDim) && 0 <= best_id && Best(d, i, best_id, best_dist)
    {
      RowFits(i, nbVec, nbDim);
      BestStep(d, i, best_id, best_dist);
      var dist;
      dist, ptr := RowWeightedDistance(x, from, weight, cdbk, nbDim, i, ptr);
      if dist < best_dist {
        best_dist := dist;
        best_id := i;
      }
    }
    BestIsNearest(d, nbVec, best_id, best_dist);
    RowFits(best_id, nbVec, nbDim);
    Subtract(x, from, cdbk, nbDim, best_id);
  }

  /** The squared distance, as large as it may get. */
  function TrueDistance(x: seq<int>, from: nat, cdbk: seq<int>, dim: nat, id: int, n: nat): int {
    if n == 0 then 0
    else TrueDistance(x, from, cdbk, dim, id, n - 1) + Square(At(x, from + n - 1) - 32 * Entry(cdbk, dim, id, n - 1))
  }

  ghost predicate Within(x: seq<int>, from: nat, n: nat, b: int) {
    forall j :: from <= j < from + n && j < |x| ==> -b <= x[j] <= b
  }

  lemma SquareBound(v: int)
    requires -14096 <= v <= 14096
    ensures 0 <= Square(v) <= 198697216
  {
    assert Times(14096 - v, 14096 + v) == 198697216 - Square(v);
  }

  /** Ten values of at most 10000 cannot wrap a distance. */
  lemma {:induction false} DistanceIsTrue(x: seq<int>, from: nat, cdbk: seq<int>, dim: nat, id: int, n: nat)
    requires n <= 10 && Signed8(cdbk) && Within(x, from, n, 10000)
    ensures Distance(x, from, cdbk, dim, id, n) == TrueDistance(x, from, cdbk, dim, id, n)
    ensures 0 <= Distance(x, from, cdbk, dim, id, n) <= 198697216 * n
  {
    if n > 0 {
      DistanceIsTrue(x, from, cdbk, dim, id, n - 1);
      SquareBound(At(x, from + n - 1) - 32 * Entry(cdbk, dim, id, n - 1));
      hide Square, Entry, At, Wrap32;
    }
  }

  /** The distance of values n and before takes in the square of how far value n
      is from the entry. */
  lemma DistanceGrows(x: seq<int>, from: nat, cdbk: seq<int>, dim: nat, id: nat, n: nat)
    requires from + n < |x| && id * dim + n < |cdbk|
    ensures var r := x[from + n] - 32 * cdbk[id * dim + n];
      TrueDistance(x, from, cdbk, dim, id, n + 1) - TrueDistance(x, from, cdbk, dim, id, n) == r * r
  {
  }

  /** It is 0 exactly at the entry. */
  lemma {:induction false} DistanceZero(x: seq<int>, from: nat, cdbk: seq<int>, dim: nat, id: nat, n: nat)
    ensures TrueDistance(x, from, cdbk, dim, id, n) >= 0
    ensures TrueDistance(x, from, cdbk, dim, id, n) == 0 <==> forall k :: 0 <= k < n ==> At(x, from + k) == 32 * Entry(cdbk, dim, id, k)
  {
    hide Entry, At;
    if n > 0 {
      DistanceZero(x, from, cdbk, dim, id, n - 1);
      SquareZero(At(x, from + n - 1) - 32 * Entry(cdbk, dim, id, n - 1));
      hide Square;
    }
  }

  lemma SquareZero(v: int)
    ensures Square(v) >= 0 && (Square(v) == 0 <==> v == 0)
  {
  }

  /** So for such values the chosen entry is nearest in true squared distance,
      the lowest of those as near. */
  lemma NearestIsTrue(x: seq<int>, from: nat, cdbk: seq<int>, nbVec: nat, dim: nat, id: int)
    requires nbVec > 0 && dim <= 10 && Signed8(cdbk) && Within(x, from, dim, 10000)
    requires Nearest(Distances(x, from, cdbk, dim), nbVec, id)
    ensures 0 <= id < nbVec
    ensures forall i :: 0 <= i < nbVec ==> TrueDistance(x, from, cdbk, dim, id, dim) <= TrueDistance(x, from, cdbk, dim, i, dim)
    ensures forall i :: 0 <= i < id ==> TrueDistance(x, from, cdbk, dim, id, dim) < TrueDistance(x, from, cdbk, dim, i, dim)
  {
    var d := Distances(x, from, cdbk, dim);
    forall i: int
      ensures d(i) == TrueDistance(x, from, cdbk, dim, i, dim) < VERY_LARGE32
    {
      DistanceIsTrue(x, from, cdbk, dim, i, dim);
    }
    hide Distances, TrueDistance;
    assert d(0) < VERY_LARGE32;
  }

  // ---------------------------------------------------------------- weights

  const LSP_PI := 25736

  /** The distance from value k to the nearer neighbour, 0 and pi being
      neighbours too. */
  function Gap(lsp: seq<int>, k: nat): int
    requires k < |lsp|
  {
    var below := Wrap(if k == 0 then lsp[0] else lsp[k] - lsp[k - 1]);
    var above := Wrap(if k == |lsp| - 1 then LSP_PI - lsp[k] else lsp[k + 1] - lsp[k]);
    if above < below then above else below
  }

  function Divisor(lsp: seq<int>, k: nat): int
    requires k < |lsp|
  {
    Wrap(300 + Gap(lsp, k))
  }

  /** No weight divides by zero. */
  ghost predicate Divides(lsp: seq<int>) {
    forall k {:trigger Divisor(lsp, k)} :: 0 <= k < |lsp| ==> Divisor(lsp, k) != 0
  }

  /** DIV32_16; the dividend is positive, so both divisions cut towards zero. */
  function Weights(lsp: seq<int>): (w: seq<int>)
    requires Divides(lsp)
    ensures |w| == |lsp|
  {
    seq(|lsp|, k requires 0 <= k < |lsp| => Wrap(81920 / Divisor(lsp, k)))
  }

  /** compute_quant_weights */
  method ComputeQuantWeights(qlsp: array<int>, quant_weight: array<int>)
    requires qlsp != quant_weight && qlsp.Length == quant_weight.Length && Divides(qlsp[..])
    modifies quant_weight
    ensures quant_weight[..] == Weights(qlsp[..])
  {
    hide Wrap;
    ghost var q := qlsp[..];
    var order := qlsp.Length;
    for i := 0 to order
      invariant qlsp[..] == q && forall k :: 0 <= k < i ==> quant_weight[k] == Weights(q)[k]
    {
      var tmp1, tmp2;
      if i == 0 {
        tmp1 := Wrap(qlsp[i]);
      } else {
        tmp1 := Wrap(qlsp[i] - qlsp[i - 1]);
      }
      if i == order - 1 {
        tmp2 := Wrap(LSP_PI - qlsp[i]);
      } else {
        tmp2 := Wrap(qlsp[i + 1] - qlsp[i]);
      }
      if tmp2 < tmp1 {
        tmp1 := tmp2;
      }
      assert tmp1 == Gap(q, i) && Divisor(q, i) != 0;
      quant_weight[i] := Wrap(81920 / Wrap(300 + tmp1));
    }
  }

  /** Angles in order, from 0 to pi. */
  ghost predicate InOrder(lsp: seq<int>) {
    && (forall k :: 0 <= k < |lsp| ==> 0 <= lsp[k] <= LSP_PI)
    && forall k :: 0 < k < |lsp| ==> lsp[k - 1] <= lsp[k]
  }

  /** Between angles in order, which lie from 0 to 25736, the gap is the distance
      to the nearer neighbour. */
  lemma GapIsNearer(lsp: seq<int>, k: nat)
    requires InOrder(lsp) && k < |lsp|
    ensures var below := lsp[k] - (if k == 0 then 0 else lsp[k - 1]); var above := (if k == |lsp| - 1 then 25736 else lsp[k + 1]) - lsp[k];
      Gap(lsp, k) <= below && Gap(lsp, k) <= above && (Gap(lsp, k) == below || Gap(lsp, k) == above)
  {
  }

  /** Angles in order have weights from 3 to 273, and the closer one comes to a
      neighbour the more it weighs. */
  lemma CloserWeighsMore(lsp: seq<int>)
    requires InOrder(lsp)
    ensures Divides(lsp) && forall k :: 0 <= k < |lsp| ==> 3 <= Weights(lsp)[k] <= 273
    ensures forall k: nat, l: nat :: k < |lsp| && l < |lsp| && Gap(lsp, k) <= Gap(lsp, l) ==> Weights(lsp)[k] >= Weights(lsp)[l]
  {
    forall k: nat | k < |lsp|
      ensures 0 <= Gap(lsp, k) <= LSP_PI && Divisor(lsp, k) == 300 + Gap(lsp, k)
    {
      GapInOrder(lsp, k);
    }
    assert Divides(lsp);
    hide Gap, Divisor, Divides, InOrder;
    forall k: nat | k < |lsp|
      ensures Weights(lsp)[k] == Share(300 + Gap(lsp, k)) && 3 <= Weights(lsp)[k] <= 273
    {
      ShareBounds(300 + Gap(lsp, k));
    }
    forall k: nat, l: nat | k < |lsp| && l < |lsp| && Gap(lsp, k) <= Gap(lsp, l)
      ensures Weights(lsp)[k] >= Weights(lsp)[l]
    {
      Quotient(300 + Gap(lsp, k), 300 + Gap(lsp, l));
    }
  }

  function Share(d: int): int
    requires d > 0
  {
    81920 / d
  }

  lemma ShareBounds(d: int)
    requires 300 <= d <= LSP_PI + 300
    ensures 3 <= Share(d) <= 273 && Wrap(81920 / d) == Share(d)
  {
    Quotient(d, LSP_PI + 300);
    Quotient(300, d);
  }

  lemma GapInOrder(lsp: seq<int>, k: nat)
    requires InOrder(lsp) && k < |lsp|
    ensures 0 <= Gap(lsp, k) <= LSP_PI && Divisor(lsp, k) == 300 + Gap(lsp, k)
  {
  }

  lemma Quotient(a: int, b: int)
    requires 0 < a <= b
    ensures 81920 / a >= 81920 / b
  {
    var p, q := 81920 / a, 81920 / b;
    QuotientBounds(81920, a);
    QuotientBounds(81920, b);
    if q > p {
      Products(p, q, a, b);
    }
  }

  lemma QuotientBounds(v: nat, a: int)
    requires a > 0
    ensures v / a >= 0 && Times(v / a, a) <= v < Times(v / a, a) + a
  {
    assert v == a * (v / a) + v % a;
  }

  lemma Products(p: nat, q: nat, a: nat, b: nat)
    requires p < q && a <= b
    ensures Times(q, b) >= Times(p, a) + a
  {
    assert Times(q, b) == Times(q - p - 1, b) + Times(p, b - a) + Times(p, a) + b;
  }

  // --------------------------------------------------------- packed indices

  ghost predicate AllIds(ids: seq<int>) {
    forall s :: 0 <= s < |ids| ==> 0 <= ids[s] < 64
  }

  /** Six bits an index. */
  function IdBits(ids: seq<int>): (b: seq<bool>)
    ensures |b| == 6 * |ids|
  {
    if ids == [] then [] else IdBits(ids[..|ids| - 1]) + BitsOf(ids[|ids| - 1], 6)
  }

  /** Index s of the bits u: 0 where they have run out. */
  function IdAt(u: seq<bool>, s: nat): int {
    if 6 * s + 6 <= |u| then ValueOf(u[6 * s..6 * s + 6]) else 0
  }

  function Ids(u: seq<bool>, n: nat): (ids: seq<int>)
    ensures |ids| == n
  {
    seq(n, s requires 0 <= s < n => IdAt(u, s))
  }

  lemma IdFits(u: seq<bool>, s: nat)
    ensures 0 <= IdAt(u, s) < 64
  {
    if 6 * s + 6 <= |u| {
      ValueBound(u[6 * s..6 * s + 6]);
      assert Pow2(6) == 64;
    }
  }

  lemma {:induction false} IdBitsAt(ids: seq<int>, s: nat)
    requires s < |ids|
    ensures IdBits(ids)[6 * s..6 * s + 6] == BitsOf(ids[s], 6)
  {
    var n := |ids| - 1;
    hide BitsOf;
    if s < n {
      IdBitsAt(ids[..n], s);
      assert IdBits(ids)[6 * s..6 * s + 6] == IdBits(ids[..n])[6 * s..6 * s + 6];
    }
  }

  /** The indices come back from their bits, whatever follows. */
  lemma IdsRoundTrip(ids: seq<int>, rest: seq<bool>)
    requires AllIds(ids)
    ensures Ids(IdBits(ids) + rest, |ids|) == ids
  {
    var u := IdBits(ids) + rest;
    hide BitsOf, ValueOf, IdBits;
    forall s | 0 <= s < |ids|
      ensures IdAt(u, s) == ids[s]
    {
      IdBitsAt(ids, s);
      assert u[6 * s..6 * s + 6] == IdBits(ids)[6 * s..6 * s + 6];
      ValueOfBits(ids[s], 6);
      SixBits();
    }
  }

  lemma IdsBack(ids: seq<int>)
    requires AllIds(ids)
    ensures Ids([] + IdBits(ids), |ids|) == ids
  {
    IdsRoundTrip(ids, []);
    assert IdBits(ids) + [] == [] + IdBits(ids);
    hide Ids, IdBits;
  }

  lemma SixBits()
    ensures Pow2(6) == 64
  {
  }

  lemma IdBitsSnoc(ids: seq<int>, id: int)
    ensures IdBits(ids + [id]) == IdBits(ids) + BitsOf(id, 6)
  {
    assert (ids + [id])[..|ids|] == ids;
    hide BitsOf;
  }

  ghost predicate Apart(bits: SpeexBits, x: array<int>)
    reads bits
  {
    var o: object := bits.chars;
    o != x
  }

  method PackId(bits: SpeexBits, id: int, ghost before: seq<bool>, ghost ids: seq<int>)
    requires bits.Writing() && bits.owner && bits.Contents() == before + IdBits(ids)
    modifies bits, bits.chars
    ensures bits.Writing() && (bits.chars == old(bits.chars) || fresh(bits.chars))
    ensures bits.Contents() == before + IdBits(ids + [id])
  {
    hide BitsOf, IdBits;
    IdBitsSnoc(ids, id);
    bits.Pack(id, 6);
    assert before + (IdBits(ids) + BitsOf(id, 6)) == before + IdBits(ids) + BitsOf(id, 6);
  }

  /** The reader has taken s indices of u, or run out. */
  ghost predicate Took(bits: SpeexBits, u: seq<bool>, s: nat)
    reads bits, bits.chars
  {
    bits.Valid() && (6 * s > |u| ==> bits.overflow) && (bits.overflow ==> 6 * s > |u| || u == [])
    && (!bits.overflow ==> bits.Unread() == u[6 * s..])
  }

  method ReadId(bits: SpeexBits, ghost u: seq<bool>, ghost s: nat) returns (id: nat)
    requires Took(bits, u, s)
    modifies bits
    ensures Took(bits, u, s + 1) && id == IdAt(u, s) && id < 64 && bits.chars == old(bits.chars)
  {
    hide ValueOf;
    IdFits(u, s);
    ghost var before := bits.Unread();
    id := bits.UnpackUnsigned(6);
    if !bits.overflow {
      assert before[..6] == u[6 * s..6 * s + 6];
      assert bits.Unread() == before[6..];
    }
  }

  // ------------------------------------------------------ stages of searches

  /** One search: of the dim values from from on, in 64 entries, by weighted
      distance or plain, and with what it leaves doubled or not. */
  datatype Stage = Stage(cdbk: seq<int>, from: nat, dim: nat, weighted: bool, doubled: bool) {
    ghost predicate Fits(order: nat) {
      from + dim <= order && |cdbk| == Times(64, dim)
    }
  }

  /** What a search leaves of x when it chooses id. */
  function StageLeft(st: Stage, x: seq<int>, id: int): (y: seq<int>)
    ensures |y| == |x|
  {
    var y := Minus(x, st.from, st.dim, st.cdbk, id);
    if st.doubled then Twice(y, st.from, st.from + st.dim) else y
  }

  /** The distances a search compares. */
  function StageDistances(st: Stage, weight: seq<int>, x: seq<int>): int -> int
    requires st.from <= |weight|
  {
    if st.weighted then WeightedDistances(x, st.from, weight[st.from..], st.cdbk, st.dim)
    else Distances(x, st.from, st.cdbk, st.dim)
  }

  /** A search sees no value and no weight but those of the values it covers. */
  lemma StageSees(st: Stage, weight: seq<int>, weight': seq<int>, x: seq<int>, x': seq<int>, id: int)
    requires st.from + st.dim <= |weight| == |weight'| == |x| == |x'|
    requires weight[st.from..st.from + st.dim] == weight'[st.from..st.from + st.dim] && x[st.from..st.from + st.dim] == x'[st.from..st.from + st.dim]
    ensures StageDistances(st, weight, x)(id) == StageDistances(st, weight', x')(id)
  {
    hide *;
    StageDistanceIs(st, weight, x, id);
    StageDistanceIs(st, weight', x', id);
    SameSeen(st, weight[st.from..], weight'[st.from..], weight, weight', x, x', id, st.dim);
  }

  lemma StageDistanceIs(st: Stage, weight: seq<int>, x: seq<int>, id: int)
    requires st.from <= |weight|
    ensures StageDistances(st, weight, x)(id) == if st.weighted then WeightedDistance(x, st.from, weight[st.from..], st.cdbk, st.dim, id, st.dim)
      else Distance(x, st.from, st.cdbk, st.dim, id, st.dim)
  {
    hide WeightedDistance, Distance;
  }

  lemma {:induction false} SameSeen(st: Stage, u: seq<int>, u': seq<int>, weight: seq<int>, weight': seq<int>, x: seq<int>, x': seq<int>, id: int, n: nat)
    requires st.from + st.dim <= |weight| == |weight'| == |x| == |x'| && n <= st.dim
    requires u == weight[st.from..] && u' == weight'[st.from..]
    requires weight[st.from..st.from + st.dim] == weight'[st.from..st.from + st.dim] && x[st.from..st.from + st.dim] == x'[st.from..st.from + st.dim]
    ensures WeightedDistance(x, st.from, u, st.cdbk, st.dim, id, n) == WeightedDistance(x', st.from, u', st.cdbk, st.dim, id, n)
    ensures Distance(x, st.from, st.cdbk, st.dim, id, n) == Distance(x', st.from, st.cdbk, st.dim, id, n)
  {
    hide *;
    if n == 0 {
      NothingSeen(st, u, x, id);
      NothingSeen(st, u', x', id);
    } else {
      OneMoreSeen(st, u, x, id, n - 1);
      OneMoreSeen(st, u', x', id, n - 1);
      SameSeen(st, u, u', weight, weight', x, x', id, n - 1);
      SameResidue(st, x, x', id, n - 1);
      SameWeight(st, u, u', weight, weight', n - 1);
    }
  }

  lemma NothingSeen(st: Stage, u: seq<int>, x: seq<int>, id: int)
    ensures WeightedDistance(x, st.from, u, st.cdbk, st.dim, id, 0) == 0 && Distance(x, st.from, st.cdbk, st.dim, id, 0) == 0
  {
  }

  lemma OneMoreSeen(st: Stage, u: seq<int>, x: seq<int>, id: int, n: nat)
    ensures var d := Square(Residue(x, st.from, st.cdbk, st.dim, id, n));
      && WeightedDistance(x, st.from, u, st.cdbk, st.dim, id, n + 1)
         == Wrap32(WeightedDistance(x, st.from, u, st.cdbk, st.dim, id, n) + MultQ15(At(u, n), d))
      && Distance(x, st.from, st.cdbk, st.dim, id, n + 1) == Wrap32(Distance(x, st.from, st.cdbk, st.dim, id, n) + d)
  {
    hide Wrap32, MultQ15, Square, Residue, At;
  }

  lemma SameResidue(st: Stage, x: seq<int>, x': seq<int>, id: int, j: nat)
    requires j < st.dim && st.from + st.dim <= |x| == |x'| && x[st.from..st.from + st.dim] == x'[st.from..st.from + st.dim]
    ensures Residue(x, st.from, st.cdbk, st.dim, id, j) == Residue(x', st.from, st.cdbk, st.dim, id, j)
  {
    hide Wrap, Entry;
    assert x[st.from + j] == x[st.from..st.from + st.dim][j] == x'[st.from + j];
  }

  lemma SameWeight(st: Stage, u: seq<int>, u': seq<int>, weight: seq<int>, weight': seq<int>, j: nat)
    requires j < st.dim && st.from + st.dim <= |weight| == |weight'| && u == weight[st.from..] && u' == weight'[st.from..]
    requires weight[st.from..st.from + st.dim] == weight'[st.from..st.from + st.dim]
    ensures At(u, j) == At(u', j)
  {
    assert u[j] == weight[st.from..st.from + st.dim][j] == u'[j];
  }

  /** The residual after the searches that chose ids. */
  function Residual(plan: seq<Stage>, x: seq<int>, ids: seq<int>): (y: seq<int>)
    requires |ids| <= |plan|
    ensures |y| == |x|
  {
    var n := |ids| - 1;
    if ids == [] then x else StageLeft(plan[n], Residual(plan, x, ids[..n]), ids[n])
  }

  ghost predicate AllFit(plan: seq<Stage>, order: nat) {
    forall s :: 0 <= s < |plan| ==> plan[s].Fits(order)
  }

  /** Every search chose an entry nearest to what those before it left of x. */
  ghost predicate Chosen(plan: seq<Stage>, x: seq<int>, weight: seq<int>, ids: seq<int>)
    requires AllFit(plan, |weight|)
  {
    ids == [] || (
      var n := |ids| - 1;
      && |ids| <= |plan| && Chosen(plan, x, weight, ids[..n]) && 0 <= ids[n] < 64
      && Nearest(StageDistances(plan[n], weight, Residual(plan, x, ids[..n])), 64, ids[n]))
  }

  /** Where an encoder is after some of its searches. */
  ghost predicate Reached(plan: seq<Stage>, x: seq<int>, weight: seq<int>, ids: seq<int>, y: seq<int>)
    requires AllFit(plan, |weight|)
  {
    |ids| <= |plan| && Chosen(plan, x, weight, ids) && y == Residual(plan, x, ids)
  }

  lemma NoneChosen(plan: seq<Stage>, x: seq<int>, weight: seq<int>)
    requires AllFit(plan, |weight|)
    ensures Reached(plan, x, weight, [], x)
  {
  }

  lemma NextChosen(plan: seq<Stage>, x: seq<int>, weight: seq<int>, ids: seq<int>, y: seq<int>, id: int)
    requires AllFit(plan, |weight|) && Reached(plan, x, weight, ids, y) && |ids| < |plan|
    requires 0 <= id < 64 && Nearest(StageDistances(plan[|ids|], weight, y), 64, id)
    ensures Reached(plan, x, weight, ids + [id], StageLeft(plan[|ids|], y, id))
  {
    hide Nearest, StageDistances, StageLeft;
    assert (ids + [id])[..|ids|] == ids;
  }

  lemma {:induction false} ChosenFit(plan: seq<Stage>, x: seq<int>, weight: seq<int>, ids: seq<int>)
    requires AllFit(plan, |weight|) && Chosen(plan, x, weight, ids)
    ensures AllIds(ids)
  {
    if ids != [] {
      var n := |ids| - 1;
      ChosenLast(plan, x, weight, ids);
      hide *;
      ChosenFit(plan, x, weight, ids[..n]);
      IdsSnoc(ids[..n], ids[n]);
      assert ids == ids[..n] + [ids[n]];
    }
  }

  lemma ChosenLast(plan: seq<Stage>, x: seq<int>, weight: seq<int>, ids: seq<int>)
    requires AllFit(plan, |weight|) && Chosen(plan, x, weight, ids) && ids != []
    ensures Chosen(plan, x, weight, ids[..|ids| - 1]) && 0 <= ids[|ids| - 1] < 64
  {
    hide AllFit;
  }

  lemma IdsSnoc(ids: seq<int>, id: int)
    requires AllIds(ids) && 0 <= id < 64
    ensures AllIds(ids + [id])
  {
  }

  /** The narrowband codebooks: one of 64 by 10, four of 64 by 5. */
  datatype Books = Books(all: seq<int>, low1: seq<int>, low2: seq<int>, high1: seq<int>, high2: seq<int>) {
    ghost predicate Valid() {
      && |all| == 640 && |low1| == |low2| == |high1| == |high2| == 320
      && Signed8(all) && Signed8(low1) && Signed8(low2) && Signed8(high1) && Signed8(high2)
    }
  }

  /** The searches of lsp_quant_nb, lsp_quant_lbr and lsp_quant_high. */
  function NbPlan(b: Books): (plan: seq<Stage>) {
    [Stage(b.all, 0, 10, false, true), Stage(b.low1, 0, 5, true, true), Stage(b.low2, 0, 5, true, false),
     Stage(b.high1, 5, 5, true, true), Stage(b.high2, 5, 5, true, false)]
  }

  function LbrPlan(b: Books): (plan: seq<Stage>) {
    [Stage(b.all, 0, 10, false, true), Stage(b.low1, 0, 5, true, false), Stage(b.high1, 5, 5, true, false)]
  }

  function HighPlan(cdbk: seq<int>, cdbk2: seq<int>): (plan: seq<Stage>) {
    [Stage(cdbk, 0, 8, false, true), Stage(cdbk2, 0, 8, true, false)]
  }

  lemma PlansFit(b: Books)
    requires b.Valid()
    ensures AllFit(NbPlan(b), 10) && AllFit(LbrPlan(b), 10)
  {
  }

  lemma HighPlanFits(cdbk: seq<int>, cdbk2: seq<int>)
    requires |cdbk| == |cdbk2| == 512
    ensures AllFit(HighPlan(cdbk, cdbk2), 8)
  {
  }

  // ------------------------------------------------------------ the encoders

  /** LSP_LINEAR and LSP_LINEAR_HIGH */
  function Linear(k: int, high: bool): int {
    if high then 2560 * k + 6144 else 2048 * (k + 1)
  }

  function Start(lsp: seq<int>, high: bool): (x: seq<int>)
    ensures |x| == |lsp|
  {
    seq(|lsp|, k requires 0 <= k < |lsp| => Wrap(lsp[k] - Linear(k, high)))
  }

  /** PSHR16 by one bit (half is 1) or two (half is 2). */
  function PShr(a: int, half: nat): int
    requires half > 0
  {
    (a + half) / (2 * half)
  }

  /** lsp minus the shifted residual. */
  function Rebuilt(lsp: seq<int>, x: seq<int>, half: nat): (q: seq<int>)
    requires |x| == |lsp| && half > 0
    ensures |q| == |lsp|
  {
    seq(|lsp|, k requires 0 <= k < |lsp| => Wrap(lsp[k] - PShr(x[k], half)))
  }

  /** What every encoder starts with: a copy of the angles, their weights, and
      the start values taken off. */
  method Begin(lsp: seq<int>, qlsp: array<int>, high: bool) returns (weight: seq<int>)
    requires |lsp| == qlsp.Length && Divides(lsp)
    modifies qlsp
    ensures weight == Weights(lsp) && qlsp[..] == Start(lsp, high)
  {
    hide Divisor, Weights;
    for i := 0 to qlsp.Length
      invariant forall k :: 0 <= k < i ==> qlsp[k] == lsp[k]
    {
      qlsp[i] := lsp[i];
    }
    assert qlsp[..] == lsp;
    var quant_weight := new int[qlsp.Length];
    ComputeQuantWeights(qlsp, quant_weight);
    weight := quant_weight[..];
    for i := 0 to qlsp.Length
      invariant forall k :: 0 <= k < qlsp.Length ==> qlsp[k] == if k < i then Start(lsp, high)[k] else lsp[k]
    {
      qlsp[i] := Wrap(qlsp[i] - Linear(i, high));
    }
  }

  method Double(x: array<int>, from: nat, to: nat)
    requires from <= to <= x.Length
    modifies x
    ensures x[..] == Twice(old(x[..]), from, to)
  {
    for i := from to to
      invariant forall k :: 0 <= k < x.Length ==> x[k] == if from <= k < i then Twice(old(x[..]), from, to)[k] else old(x[k])
    {
      x[i] := Wrap(x[i] * 2);
    }
  }

  method Finish(lsp: seq<int>, qlsp: array<int>, half: nat)
    requires |lsp| == qlsp.Length && half > 0
    modifies qlsp
    ensures qlsp[..] == Rebuilt(lsp, old(qlsp[..]), half)
  {
    hide PShr;
    ghost var X := qlsp[..];
    for i := 0 to qlsp.Length
      invariant forall k :: 0 <= k < qlsp.Length ==> qlsp[k] == if k < i then PShr(X[k], half) else X[k]
    {
      qlsp[i] := PShr(qlsp[i], half);
    }
    for i := 0 to qlsp.Length
      invariant forall k :: 0 <= k < qlsp.Length ==> qlsp[k] == if k < i then Rebuilt(lsp, X, half)[k] else PShr(X[k], half)
    {
      qlsp[i] := Wrap(lsp[i] - qlsp[i]);
    }
  }

  /** The indices packed so far. */
  ghost predicate Packed(bits: SpeexBits, before: seq<bool>, ids: seq<int>)
    reads bits, bits.chars
  {
    bits.Writing() && bits.Contents() == before + IdBits(ids)
  }

  /** A search, packed, and what it leaves doubled if the stage says so. */
  method RunStage(st: Stage, qlsp: array<int>, weight: seq<int>, bits: SpeexBits,
                  ghost plan: seq<Stage>, ghost x: seq<int>, ghost before: seq<bool>, ghost ids: seq<int>) returns (ghost ids': seq<int>)
    requires qlsp.Length == |weight| && AllFit(plan, |weight|) && |ids| < |plan| && st == plan[|ids|]
    requires Reached(plan, x, weight, ids, qlsp[..]) && bits.owner && Packed(bits, before, ids) && Apart(bits, qlsp)
    modifies qlsp, bits, bits.chars
    ensures |ids'| == |ids| + 1 && Reached(plan, x, weight, ids', qlsp[..]) && Packed(bits, before, ids')
    ensures Apart(bits, qlsp) && (bits.chars == old(bits.chars) || fresh(bits.chars))
  {
    hide Nearest, Minus, Twice, WeightedDistances, Distances, IdBits, Times, Reached;
    ghost var y := qlsp[..];
    var id;
    if st.weighted {
      id := LspWeightQuant(qlsp, st.from, weight[st.from..], st.cdbk, 64, st.dim);
    } else {
      id := LspQuant(qlsp, st.from, st.cdbk, 64, st.dim);
    }
    ids' := ids + [id];
    PackId(bits, id, before, ids);
    if st.doubled {
      Double(qlsp, st.from, st.from + st.dim);
    }
    NextChosen(plan, x, weight, ids, y, id);
  }

  lemma NoIds(bits: SpeexBits)
    requires bits.Writing()
    ensures Packed(bits, bits.Contents(), [])
  {
    assert bits.Contents() + IdBits([]) == bits.Contents();
  }

  /** lsp_quant_nb: five searches, 30 bits. */
  method LspQuantNb(lsp: seq<int>, qlsp: array<int>, b: Books, bits: SpeexBits) returns (ghost ids: seq<int>)
    requires |lsp| == qlsp.Length == 10 && Divides(lsp) && AllFit(NbPlan(b), 10) && bits.Writing() && bits.owner && Apart(bits, qlsp)
    modifies qlsp, bits, bits.chars
    ensures |ids| == 5 && Chosen(NbPlan(b), Start(lsp, false), Weights(lsp), ids)
    ensures qlsp[..] == Rebuilt(lsp, Residual(NbPlan(b), Start(lsp, false), ids), 2)
    ensures Packed(bits, old(bits.Contents()), ids) && (bits.chars == old(bits.chars) || fresh(bits.chars))
  {
    hide Packed, Chosen, Rebuilt, Residual, Start, AllFit, Weights, Divides;
    ghost var x, before, plan := Start(lsp, false), bits.Contents(), NbPlan(b);
    NoIds(bits);
    var weight := Begin(lsp, qlsp, false);
    NoneChosen(plan, x, weight);
    ids := [];
    ids := RunStage(Stage(b.all, 0, 10, false, true), qlsp, weight, bits, plan, x, before, ids);
    ids := RunStage(Stage(b.low1, 0, 5, true, true), qlsp, weight, bits, plan, x, before, ids);
    ids := RunStage(Stage(b.low2, 0, 5, true, false), qlsp, weight, bits, plan, x, before, ids);
    ids := RunStage(Stage(b.high1, 5, 5, true, true), qlsp, weight, bits, plan, x, before, ids);
    ids := RunStage(Stage(b.high2, 5, 5, true, false), qlsp, weight, bits, plan, x, before, ids);
    Finish(lsp, qlsp, 2);
  }

  /** lsp_quant_lbr: three searches, 18 bits. */
  method LspQuantLbr(lsp: seq<int>, qlsp: array<int>, b: Books, bits: SpeexBits) returns (ghost ids: seq<int>)
    requires |lsp| == qlsp.Length == 10 && Divides(lsp) && AllFit(LbrPlan(b), 10) && bits.Writing() && bits.owner && Apart(bits, qlsp)
    modifies qlsp, bits, bits.chars
    ensures |ids| == 3 && Chosen(LbrPlan(b), Start(lsp, false), Weights(lsp), ids)
    ensures qlsp[..] == Rebuilt(lsp, Residual(LbrPlan(b), Start(lsp, false), ids), 1)
    ensures Packed(bits, old(bits.Contents()), ids) && (bits.chars == old(bits.chars) || fresh(bits.chars))
  {
    hide Packed, Chosen, Rebuilt, Residual, Start, AllFit, Weights, Divides;
    ghost var x, before, plan := Start(lsp, false), bits.Contents(), LbrPlan(b);
    NoIds(bits);
    var weight := Begin(lsp, qlsp, false);
    NoneChosen(plan, x, weight);
    ids := [];
    ids := RunStage(Stage(b.all, 0, 10, false, true), qlsp, weight, bits, plan, x, before, ids);
    ids := RunStage(Stage(b.low1, 0, 5, true, false), qlsp, weight, bits, plan, x, before, ids);
    ids := RunStage(Stage(b.high1, 5, 5, true, false), qlsp, weight, bits, plan, x, before, ids);
    Finish(lsp, qlsp, 1);
  }

  /** lsp_quant_high: two searches, 12 bits. */
  method LspQuantHigh(lsp: seq<int>, qlsp: array<int>, cdbk: seq<int>, cdbk2: seq<int>, bits: SpeexBits)
    returns (ghost ids: seq<int>)
    requires |lsp| == qlsp.Length == 8 && Divides(lsp) && AllFit(HighPlan(cdbk, cdbk2), 8) && bits.Writing() && bits.owner && Apart(bits, qlsp)
    modifies qlsp, bits, bits.chars
    ensures |ids| == 2 && Chosen(HighPlan(cdbk, cdbk2), Start(lsp, true), Weights(lsp), ids)
    ensures qlsp[..] == Rebuilt(lsp, Residual(HighPlan(cdbk, cdbk2), Start(lsp, true), ids), 1)
    ensures Packed(bits, old(bits.Contents()), ids) && (bits.chars == old(bits.chars) || fresh(bits.chars))
  {
    hide Packed, Chosen, Rebuilt, Residual, Start, AllFit, Weights, Divides;
    ghost var x, before, plan := Start(lsp, true), bits.Contents(), HighPlan(cdbk, cdbk2);
    NoIds(bits);
    var weight := Begin(lsp, qlsp, true);
    NoneChosen(plan, x, weight);
    ids := [];
    ids := RunStage(Stage(cdbk, 0, 8, false, true), qlsp, weight, bits, plan, x, before, ids);
    ids := RunStage(Stage(cdbk2, 0, 8, true, false), qlsp, weight, bits, plan, x, before, ids);
    Finish(lsp, qlsp, 1);
  }

  // ------------------------------------------------------------ the decoders

  predicate Covers(st: Stage, k: int) {
    st.from <= k < st.from + st.dim
  }

  /** What entry id of a stage adds to value k. */
  function Added(st: Stage, scale: int, id: int, k: int): int {
    if Covers(st, k) then Times(scale, Entry(st.cdbk, st.dim, id, k - st.from)) else 0
  }

  /** Value k after the stages ids, each adding its entry in its own scale. */
  function DecodedAt(plan: seq<Stage>, scales: seq<int>, ids: seq<int>, high: bool, k: int): int
    requires |ids| <= |plan| == |scales|
  {
    var n := |ids| - 1;
    if ids == [] then Linear(k, high)
    else DecodedAt(plan, scales, ids[..n], high, k) + Added(plan[n], scales[n], ids[n], k)
  }

  function Decoded(plan: seq<Stage>, scales: seq<int>, ids: seq<int>, high: bool, order: nat): (lsp: seq<int>)
    requires |ids| <= |plan| == |scales|
    ensures |lsp| == order
  {
    seq(order, k => DecodedAt(plan, scales, ids, high, k))
  }

  /** How far the residual of value k is scaled up before search n. */
  function Gain(plan: seq<Stage>, n: nat, k: int): nat
    requires n <= |plan|
  {
    if n == 0 then 1 else Gain(plan, n - 1, k) * if Covers(plan[n - 1], k) && plan[n - 1].doubled then 2 else 1
  }

  /** The scales of the first n entries that touch value k. */
  function Reach(plan: seq<Stage>, scales: seq<int>, n: nat, k: int): int
    requires n <= |plan| == |scales|
  {
    if n == 0 then 0 else Reach(plan, scales, n - 1, k) + if Covers(plan[n - 1], k) then scales[n - 1] else 0
  }

  /** The decoder's scale of an entry undoes the encoder's doublings; in the end
      each residual is up by 2 half; and no value can leave 16 bits. */
  ghost predicate Matched(plan: seq<Stage>, scales: seq<int>, order: nat, half: nat) {
    && |scales| == |plan| && AllFit(plan, order)
    && (forall n :: 0 <= n < |plan| ==> Signed8(plan[n].cdbk) && scales[n] >= 0)
    && (forall n: nat, k: nat :: n < |plan| && k < order && Covers(plan[n], k) ==> scales[n] * Gain(plan, n, k) == 32)
    && (forall k: nat :: k < order ==> Gain(plan, |plan|, k) == 2 * half)
    && (forall n: nat, k: nat :: n <= |plan| && k < order ==> Reach(plan, scales, n, k) <= 56)
  }

  const NB_SCALES := [32, 16, 8, 16, 8]
  const LBR_SCALES := [32, 16, 16]
  const HIGH_SCALES := [32, 16]

  lemma NbMatched(b: Books)
    requires b.Valid()
    ensures Matched(NbPlan(b), NB_SCALES, 10, 2)
    ensures forall k: nat :: k < 10 ==> Reach(NbPlan(b), NB_SCALES, 5, k) == 56
  {
    var p := NbPlan(b);
    PlansFit(b);
    forall k: nat | k < 10
      ensures Gain(p, 0, k) == 1 && Gain(p, 1, k) == 2
      ensures Gain(p, 2, k) == if k < 5 then 4 else 2
      ensures Gain(p, 3, k) == if k < 5 then 4 else 2
      ensures Gain(p, 4, k) == 4 && Gain(p, 5, k) == 4
      ensures Reach(p, NB_SCALES, 0, k) == 0 && Reach(p, NB_SCALES, 1, k) == 32
      ensures Reach(p, NB_SCALES, 2, k) == if k < 5 then 48 else 32
      ensures Reach(p, NB_SCALES, 3, k) == if k < 5 then 56 else 32
      ensures Reach(p, NB_SCALES, 4, k) == if k < 5 then 56 else 48
      ensures Reach(p, NB_SCALES, 5, k) == 56
    {
    }
  }

  lemma LbrMatched(b: Books)
    requires b.Valid()
    ensures Matched(LbrPlan(b), LBR_SCALES, 10, 1)
    ensures forall k: nat :: k < 10 ==> Reach(LbrPlan(b), LBR_SCALES, 3, k) == 48
  {
    var p := LbrPlan(b);
    PlansFit(b);
    forall k: nat | k < 10
      ensures Gain(p, 0, k) == 1 && Gain(p, 1, k) == Gain(p, 2, k) == Gain(p, 3, k) == 2
      ensures Reach(p, LBR_SCALES, 0, k) == 0 && Reach(p, LBR_SCALES, 1, k) == 32
      ensures Reach(p, LBR_SCALES, 2, k) == if k < 5 then 48 else 32
      ensures Reach(p, LBR_SCALES, 3, k) == 48
    {
    }
  }

  lemma HighMatched(cdbk: seq<int>, cdbk2: seq<int>)
    requires |cdbk| == |cdbk2| == 512 && Signed8(cdbk) && Signed8(cdbk2)
    ensures Matched(HighPlan(cdbk, cdbk2), HIGH_SCALES, 8, 1)
    ensures forall k: nat :: k < 8 ==> Reach(HighPlan(cdbk, cdbk2), HIGH_SCALES, 2, k) == 48
  {
    var p := HighPlan(cdbk, cdbk2);
    HighPlanFits(cdbk, cdbk2);
    forall k: nat | k < 8
      ensures Gain(p, 0, k) == 1 && Gain(p, 1, k) == Gain(p, 2, k) == 2
      ensures Reach(p, HIGH_SCALES, 0, k) == 0 && Reach(p, HIGH_SCALES, 1, k) == 32
      ensures Reach(p, HIGH_SCALES, 2, k) == 48
    {
    }
  }

  /** No value the decoder builds leaves 16 bits. */
  lemma {:induction false} DecodedFits(plan: seq<Stage>, scales: seq<int>, ids: seq<int>, high: bool, order: nat, half: nat, k: nat)
    requires Matched(plan, scales, order, half) && |ids| <= |plan| && k < order <= 10 && (high ==> order <= 8)
    ensures var d := DecodedAt(plan, scales, ids, high, k) - Linear(k, high); var r := Reach(plan, scales, |ids|, k);
      -128 * r <= d <= 127 * r
    ensures -8192 <= DecodedAt(plan, scales, ids, high, k) < 32768
  {
    if ids != [] {
      var n := |ids| - 1;
      DecodedFits(plan, scales, ids[..n], high, order, half, k);
      EntryBound(plan[n].cdbk, plan[n].dim, ids[n], k - plan[n].from, scales[n]);
      hide Entry, Times, Signed8;
    }
  }

  lemma EntryBound(cdbk: seq<int>, dim: nat, id: int, j: int, scale: int)
    requires Signed8(cdbk) && scale >= 0
    ensures -128 * scale <= Times(scale, Entry(cdbk, dim, id, j)) <= 127 * scale
  {
    ScaleBound(scale, Entry(cdbk, dim, id, j));
  }

  lemma ScaleBound(scale: int, e: int)
    requires scale >= 0 && -128 <= e < 128
    ensures -128 * scale <= Times(scale, e) <= 127 * scale
  {
  }

  /** After the searches, the residual of value k is its distance from what the
      decoder has, scaled up, modulo 2^16. */
  lemma {:induction false} ResidualIsDistance(plan: seq<Stage>, scales: seq<int>, lsp: seq<int>, ids: seq<int>, high: bool, half: nat, k: nat)
    requires Matched(plan, scales, |lsp|, half) && |ids| <= |plan| && k < |lsp|
    ensures Residual(plan, Start(lsp, high), ids)[k]
         == Wrap(Times(Gain(plan, |ids|, k), lsp[k] - DecodedAt(plan, scales, ids, high, k)))
  {
    hide StageLeft, Entry, Wrap, Added, Gain;
    if ids == [] {
      NoGain(plan, lsp, high, k);
    } else {
      var n := |ids| - 1;
      ResidualIsDistance(plan, scales, lsp, ids[..n], high, half, k);
      StageKeeps(plan, scales, |lsp|, half, n, Residual(plan, Start(lsp, high), ids[..n]), ids[n],
        lsp[k] - DecodedAt(plan, scales, ids[..n], high, k), k);
      hide Matched, Times, Start;
    }
  }

  lemma NoGain(plan: seq<Stage>, lsp: seq<int>, high: bool, k: nat)
    requires k < |lsp|
    ensures Start(lsp, high)[k] == Wrap(Times(Gain(plan, 0, k), lsp[k] - Linear(k, high)))
  {
  }

  lemma StageKeeps(plan: seq<Stage>, scales: seq<int>, order: nat, half: nat, n: nat, x: seq<int>, id: int, d: int, k: nat)
    requires Matched(plan, scales, order, half) && n < |plan| && k < order == |x|
    requires x[k] == Wrap(Times(Gain(plan, n, k), d))
    ensures StageLeft(plan[n], x, id)[k] == Wrap(Times(Gain(plan, n + 1, k), d - Added(plan[n], scales[n], id, k)))
  {
    hide *;
    var e := Entry(plan[n].cdbk, plan[n].dim, id, k - plan[n].from);
    StageLeftAt(plan[n], x, id, k);
    StageGain(plan, scales, order, half, n, id, k);
    if Covers(plan[n], k) {
      StageArithmetic(Gain(plan, n, k), d, e, scales[n]);
    }
  }

  lemma StageGain(plan: seq<Stage>, scales: seq<int>, order: nat, half: nat, n: nat, id: int, k: nat)
    requires Matched(plan, scales, order, half) && n < |plan| && k < order
    ensures |scales| == |plan|
    ensures Gain(plan, n + 1, k) == if Covers(plan[n], k) && plan[n].doubled then Gain(plan, n, k) * 2 else Gain(plan, n, k)
    ensures Covers(plan[n], k) ==> scales[n] * Gain(plan, n, k) == 32
    ensures Added(plan[n], scales[n], id, k)
         == if Covers(plan[n], k) then Times(scales[n], Entry(plan[n].cdbk, plan[n].dim, id, k - plan[n].from)) else 0
  {
    hide Entry, Times, Covers, Reach, Stage.Fits;
  }

  lemma StageLeftAt(st: Stage, x: seq<int>, id: int, k: nat)
    requires k < |x|
    ensures StageLeft(st, x, id)[k]
         == if !Covers(st, k) then x[k]
            else var y := Wrap(x[k] - 32 * Entry(st.cdbk, st.dim, id, k - st.from)); if st.doubled then Wrap(2 * y) else y
  {
  }

  lemma StageArithmetic(g: nat, d: int, e: int, scale: int)
    requires scale * g == 32
    ensures Wrap(Wrap(Times(g, d)) - 32 * e) == Wrap(Times(g, d - Times(scale, e)))
    ensures Wrap(2 * Wrap(Wrap(Times(g, d)) - 32 * e)) == Wrap(Times(g * 2, d - Times(scale, e)))
  {
    var v := Times(g, d) - 32 * e;
    assert v == Times(g, d - Times(scale, e)) by {
      assert g * (scale * e) == 32 * e;
    }
    WrapMinus(Times(g, d), 32 * e);
    WrapTwice(v);
    assert 2 * v == Times(g * 2, d - Times(scale, e));
  }

  /** The last shift gives back what the decoder has exactly when the residual
      it shifts fits 16 bits. */
  lemma ShiftExact(l: int, d: int, half: nat)
    requires half == 1 || half == 2
    requires 0 <= l < 32768 && -8192 <= d < 32768
    ensures Wrap(l - PShr(Wrap(Times(2 * half, l - d)), half)) == d <==> Fits16(Times(2 * half, l - d))
  {
    if half == 1 {
      ShiftOne(l, d);
    } else {
      ShiftTwo(l, d);
    }
  }

  lemma ShiftOne(l: int, d: int)
    requires 0 <= l < 32768 && -8192 <= d < 32768
    ensures Wrap(l - PShr(Wrap(2 * (l - d)), 1)) == d <==> Fits16(2 * (l - d))
  {
    var k := (2 * (l - d) + 32768) / 65536;
    WrapDrops(2 * (l - d));
    assert PShr(Wrap(2 * (l - d)), 1) == l - d - 32768 * k;
    assert -1 <= k <= 1;
  }

  lemma ShiftTwo(l: int, d: int)
    requires 0 <= l < 32768 && -8192 <= d < 32768
    ensures Wrap(l - PShr(Wrap(4 * (l - d)), 2)) == d <==> Fits16(4 * (l - d))
  {
    var k := (4 * (l - d) + 32768) / 65536;
    WrapDrops(4 * (l - d));
    assert PShr(Wrap(4 * (l - d)), 2) == l - d - 16384 * k;
    assert -2 <= k <= 2;
  }

  /** What the encoder keeps of value k is what the decoder rebuilds from the
      same indices exactly when the quantisation error, scaled up as it is,
      fits 16 bits. */
  lemma EncoderAgrees(plan: seq<Stage>, scales: seq<int>, lsp: seq<int>, ids: seq<int>, high: bool, half: nat, k: nat)
    requires half == 1 || half == 2
    requires Matched(plan, scales, |lsp|, half) && |ids| == |plan| && k < |lsp| <= 10 && (high ==> |lsp| <= 8) && 0 <= lsp[k] < 32768
    ensures var d := Decoded(plan, scales, ids, high, |lsp|)[k];
      Rebuilt(lsp, Residual(plan, Start(lsp, high), ids), half)[k] == d <==> Fits16(Times(2 * half, lsp[k] - d))
  {
    hide *;
    MatchedGain(plan, scales, |lsp|, half, k);
    var d := DecodedAt(plan, scales, ids, high, k);
    DecodedIs(plan, scales, ids, high, |lsp|, k);
    RebuiltIs(lsp, Residual(plan, Start(lsp, high), ids), half, k);
    ResidualIsDistance(plan, scales, lsp, ids, high, half, k);
    DecodedFits(plan, scales, ids, high, |lsp|, half, k);
    ShiftExact(lsp[k], d, half);
  }

  lemma DecodedIs(plan: seq<Stage>, scales: seq<int>, ids: seq<int>, high: bool, order: nat, k: nat)
    requires |ids| <= |plan| == |scales| && k < order
    ensures Decoded(plan, scales, ids, high, order)[k] == DecodedAt(plan, scales, ids, high, k)
  {
  }

  lemma RebuiltIs(lsp: seq<int>, x: seq<int>, half: nat, k: nat)
    requires |x| == |lsp| && half > 0 && k < |lsp|
    ensures Rebuilt(lsp, x, half)[k] == Wrap(lsp[k] - PShr(x[k], half))
  {
  }

  lemma MatchedGain(plan: seq<Stage>, scales: seq<int>, order: nat, half: nat, k: nat)
    requires Matched(plan, scales, order, half) && k < order
    ensures |scales| == |plan| && Gain(plan, |plan|, k) == 2 * half
  {
  }

  ghost predicate Angles(lsp: seq<int>) {
    forall k :: 0 <= k < |lsp| ==> 0 <= lsp[k] < 32768
  }

  /** Narrowband: exactly for quantisation errors below 8192, which is one
      radian. */
  lemma NbAgrees(b: Books, lsp: seq<int>, ids: seq<int>, k: nat)
    requires b.Valid() && |lsp| == 10 && Angles(lsp) && |ids| == 5 && k < 10
    ensures var q, d := Rebuilt(lsp, Residual(NbPlan(b), Start(lsp, false), ids), 2), Decoded(NbPlan(b), NB_SCALES, ids, false, 10);
      q[k] == d[k] <==> -8192 <= lsp[k] - d[k] < 8192
  {
    NbMatched(b);
    hide Residual, Decoded, Rebuilt, Matched, Start;
    EncoderAgrees(NbPlan(b), NB_SCALES, lsp, ids, false, 2, k);
  }

  lemma LbrAgrees(b: Books, lsp: seq<int>, ids: seq<int>, k: nat)
    requires b.Valid() && |lsp| == 10 && Angles(lsp) && |ids| == 3 && k < 10
    ensures var q, d := Rebuilt(lsp, Residual(LbrPlan(b), Start(lsp, false), ids), 1), Decoded(LbrPlan(b), LBR_SCALES, ids, false, 10);
      q[k] == d[k] <==> -16384 <= lsp[k] - d[k] < 16384
  {
    LbrMatched(b);
    hide Residual, Decoded, Rebuilt, Matched, Start;
    EncoderAgrees(LbrPlan(b), LBR_SCALES, lsp, ids, false, 1, k);
  }

  lemma HighAgrees(cdbk: seq<int>, cdbk2: seq<int>, lsp: seq<int>, ids: seq<int>, k: nat)
    requires |cdbk| == |cdbk2| == 512 && Signed8(cdbk) && Signed8(cdbk2)
    requires |lsp| == 8 && Angles(lsp) && |ids| == 2 && k < 8
    ensures var p := HighPlan(cdbk, cdbk2);
      var q, d := Rebuilt(lsp, Residual(p, Start(lsp, true), ids), 1), Decoded(p, HIGH_SCALES, ids, true, 8);
      q[k] == d[k] <==> -16384 <= lsp[k] - d[k] < 16384
  {
    HighMatched(cdbk, cdbk2);
    hide Residual, Decoded, Rebuilt, Matched, Start;
    EncoderAgrees(HighPlan(cdbk, cdbk2), HIGH_SCALES, lsp, ids, true, 1, k);
  }

  method InitDecoded(lsp: array<int>, high: bool)
    modifies lsp
    ensures forall k :: 0 <= k < lsp.Length ==> lsp[k] == Linear(k, high)
  {
    for i := 0 to lsp.Length
      invariant forall k :: 0 <= k < i ==> lsp[k] == Linear(k, high)
    {
      lsp[i] := Linear(i, high);
    }
  }

  method AddEntry(st: Stage, scale: int, lsp: array<int>, id: nat)
    requires st.Fits(lsp.Length) && id < 64
    modifies lsp
    ensures forall k :: 0 <= k < lsp.Length ==> lsp[k] == if Covers(st, k) then Wrap(old(lsp[k]) + Added(st, scale, id, k)) else old(lsp[k])
  {
    RowFits(id, 64, st.dim);
    hide Wrap, Times;
    for i := 0 to st.dim
      invariant forall k :: 0 <= k < lsp.Length ==>
        lsp[k] == (if st.from <= k < st.from + i then Wrap(old(lsp[k]) + Added(st, scale, id, k)) else old(lsp[k]))
    {
      var e := st.cdbk[Times(id, st.dim) + i];
      lsp[st.from + i] := Wrap(lsp[st.from + i] + Times(scale, e));
    }
  }

  lemma DecodedStep(plan: seq<Stage>, scales: seq<int>, u: seq<bool>, s: nat, high: bool, order: nat, half: nat, k: nat)
    requires Matched(plan, scales, order, half) && s < |plan| && k < order <= 10 && (high ==> order <= 8)
    ensures var d := DecodedAt(plan, scales, Ids(u, s), high, k) + Added(plan[s], scales[s], IdAt(u, s), k);
      Decoded(plan, scales, Ids(u, s + 1), high, order)[k] == d && Wrap(d) == d
  {
    hide *;
    MatchedLengths(plan, scales, order, half);
    DecodedFits(plan, scales, Ids(u, s + 1), high, order, half, k);
    DecodedNext(plan, scales, u, s, high, order, k);
    WrapFits16(DecodedAt(plan, scales, Ids(u, s + 1), high, k));
  }

  lemma MatchedLengths(plan: seq<Stage>, scales: seq<int>, order: nat, half: nat)
    requires Matched(plan, scales, order, half)
    ensures |scales| == |plan|
  {
  }

  lemma DecodedNext(plan: seq<Stage>, scales: seq<int>, u: seq<bool>, s: nat, high: bool, order: nat, k: nat)
    requires s < |plan| == |scales| && k < order
    ensures Decoded(plan, scales, Ids(u, s + 1), high, order)[k] == DecodedAt(plan, scales, Ids(u, s + 1), high, k)
         == DecodedAt(plan, scales, Ids(u, s), high, k) + Added(plan[s], scales[s], IdAt(u, s), k)
  {
    assert Ids(u, s + 1)[..s] == Ids(u, s);
    hide Added, IdAt, Linear;
  }

  lemma WrapFits16(v: int)
    requires -32768 <= v < 32768
    ensures Wrap(v) == v
  {
  }

  /** An index read, and its entry added. */
  method DecodeStage(st: Stage, scale: int, lsp: array<int>, bits: SpeexBits, ghost plan: seq<Stage>, ghost scales: seq<int>,
                     ghost high: bool, ghost half: nat, ghost u: seq<bool>, ghost s: nat)
    requires Matched(plan, scales, lsp.Length, half) && s < |plan| && st == plan[s] && scale == scales[s]
    requires lsp.Length <= 10 && (high ==> lsp.Length <= 8) && Took(bits, u, s) && Apart(bits, lsp)
    requires lsp[..] == Decoded(plan, scales, Ids(u, s), high, lsp.Length)
    modifies lsp, bits
    ensures Took(bits, u, s + 1) && bits.chars == old(bits.chars)
    ensures lsp[..] == Decoded(plan, scales, Ids(u, s + 1), high, lsp.Length)
  {
    ghost var order, x := lsp.Length, lsp[..];
    StageFits(plan, scales, order, half, s);
    hide Matched, Took, Ids, IdAt, Added, Decoded, DecodedAt, Stage.Fits;
    var id := ReadId(bits, u, s);
    AddEntry(st, scale, lsp, id);
    forall k: nat | k < order
      ensures lsp[k] == Decoded(plan, scales, Ids(u, s + 1), high, order)[k]
    {
      DecodedIs(plan, scales, Ids(u, s), high, order, k);
      DecodedStep(plan, scales, u, s, high, order, half, k);
      assert lsp[..][k] == lsp[k] && x[k] == old(lsp[k]);
      NotAdded(st, scale, id, k);
    }
  }

  lemma StageFits(plan: seq<Stage>, scales: seq<int>, order: nat, half: nat, s: nat)
    requires Matched(plan, scales, order, half) && s < |plan|
    ensures plan[s].Fits(order) && |scales| == |plan|
  {
  }

  lemma NotAdded(st: Stage, scale: int, id: int, k: int)
    ensures !Covers(st, k) ==> Added(st, scale, id, k) == 0
  {
  }

  lemma NoneDecoded(plan: seq<Stage>, scales: seq<int>, x: seq<int>, u: seq<bool>, high: bool, bits: SpeexBits)
    requires |plan| == |scales| && forall k :: 0 <= k < |x| ==> x[k] == Linear(k, high)
    requires bits.Valid() && u == Left(bits)
    ensures x == Decoded(plan, scales, Ids(u, 0), high, |x|) && Took(bits, u, 0)
  {
    hide Linear;
  }

  /** lsp_unquant_nb */
  method LspUnquantNb(lsp: array<int>, b: Books, bits: SpeexBits)
    requires lsp.Length == 10 && b.Valid() && bits.Valid() && Apart(bits, lsp)
    modifies lsp, bits
    ensures var u := old(Left(bits));
      && lsp[..] == Decoded(NbPlan(b), NB_SCALES, Ids(u, 5), false, 10)
      && Took(bits, u, 5) && bits.chars == old(bits.chars)
  {
    hide Took, Ids, Decoded, Linear, Matched, SpeexBits.Unread;
    ghost var u, p := Left(bits), NbPlan(b);
    NbMatched(b);
    InitDecoded(lsp, false);
    NoneDecoded(p, NB_SCALES, lsp[..], u, false, bits);
    DecodeStage(Stage(b.all, 0, 10, false, true), 32, lsp, bits, p, NB_SCALES, false, 2, u, 0);
    DecodeStage(Stage(b.low1, 0, 5, true, true), 16, lsp, bits, p, NB_SCALES, false, 2, u, 1);
    DecodeStage(Stage(b.low2, 0, 5, true, false), 8, lsp, bits, p, NB_SCALES, false, 2, u, 2);
    DecodeStage(Stage(b.high1, 5, 5, true, true), 16, lsp, bits, p, NB_SCALES, false, 2, u, 3);
    DecodeStage(Stage(b.high2, 5, 5, true, false), 8, lsp, bits, p, NB_SCALES, false, 2, u, 4);
  }

  /** lsp_unquant_lbr */
  method LspUnquantLbr(lsp: array<int>, b: Books, bits: SpeexBits)
    requires lsp.Length == 10 && b.Valid() && bits.Valid() && Apart(bits, lsp)
    modifies lsp, bits
    ensures var u := old(Left(bits));
      && lsp[..] == Decoded(LbrPlan(b), LBR_SCALES, Ids(u, 3), false, 10)
      && Took(bits, u, 3) && bits.chars == old(bits.chars)
  {
    hide Took, Ids, Decoded, Linear, Matched, SpeexBits.Unread;
    ghost var u, p := Left(bits), LbrPlan(b);
    LbrMatched(b);
    InitDecoded(lsp, false);
    NoneDecoded(p, LBR_SCALES, lsp[..], u, false, bits);
    DecodeStage(Stage(b.all, 0, 10, false, true), 32, lsp, bits, p, LBR_SCALES, false, 1, u, 0);
    DecodeStage(Stage(b.low1, 0, 5, true, false), 16, lsp, bits, p, LBR_SCALES, false, 1, u, 1);
    DecodeStage(Stage(b.high1, 5, 5, true, false), 16, lsp, bits, p, LBR_SCALES, false, 1, u, 2);
  }

  /** lsp_unquant_high */
  method LspUnquantHigh(lsp: array<int>, cdbk: seq<int>, cdbk2: seq<int>, bits: SpeexBits)
    requires lsp.Length == 8 && |cdbk| == |cdbk2| == 512 && Signed8(cdbk) && Signed8(cdbk2)
    requires bits.Valid() && Apart(bits, lsp)
    modifies lsp, bits
    ensures var u := old(Left(bits));
      && lsp[..] == Decoded(HighPlan(cdbk, cdbk2), HIGH_SCALES, Ids(u, 2), true, 8)
      && Took(bits, u, 2) && bits.chars == old(bits.chars)
  {
    hide Took, Ids, Decoded, Linear, Matched, SpeexBits.Unread;
    ghost var u, p := Left(bits), HighPlan(cdbk, cdbk2);
    HighMatched(cdbk, cdbk2);
    InitDecoded(lsp, true);
    NoneDecoded(p, HIGH_SCALES, lsp[..], u, true, bits);
    DecodeStage(Stage(cdbk, 0, 8, false, true), 32, lsp, bits, p, HIGH_SCALES, true, 1, u, 0);
    DecodeStage(Stage(cdbk2, 0, 8, true, false), 16, lsp, bits, p, HIGH_SCALES, true, 1, u, 1);
  }
}
