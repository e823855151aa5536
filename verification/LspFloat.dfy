/** Quantised line spectral pairs in the floating-point build, over exact reals:
    the same searches and the same bits as in fixed point, with decimal
    constants that are not quite powers of two. */
module LspFloat {
  import opened IntArith
  import opened Bits
  import opened QuantLsp
  import RealSums

  const FLOAT_VERY_LARGE := 1000000000000000.0

  function RealAt(x: seq<real>, i: int): real {
    RealSums.At(x, i)
  }

  // ------------------------------------------------------------ the searches

  /** The residual of value j against entry id. */
  function RealResidue(x: seq<real>, from: nat, cdbk: seq<int>, dim: nat, id: int, j: int): real {
    RealAt(x, from + j) - Entry(cdbk, dim, id, j) as real
  }

  function RealSquare(v: real): real {
    v * v
  }

  function RealDistance(x: seq<real>, from: nat, cdbk: seq<int>, dim: nat, id: int, n: nat): real {
    if n == 0 then 0.0
    else RealDistance(x, from, cdbk, dim, id, n - 1) + RealSquare(RealResidue(x, from, cdbk, dim, id, n - 1))
  }

  function RealWeighted(x: seq<real>, from: nat, weight: seq<real>, cdbk: seq<int>, dim: nat, id: int, n: nat): real {
    if n == 0 then 0.0
    else
      var d := RealSquare(RealResidue(x, from, cdbk, dim, id, n - 1));
      RealWeighted(x, from, weight, cdbk, dim, id, n - 1) + RealSums.RealTimes(RealAt(weight, n - 1), d)
  }

  /** What a search compares. */
  function RealDistances(st: Stage, weight: seq<real>, x: seq<real>): int -> real
    requires st.from <= |weight|
  {
    if st.weighted then id => RealWeighted(x, st.from, weight[st.from..], st.cdbk, st.dim, id, st.dim)
    else id => RealDistance(x, st.from, st.cdbk, st.dim, id, st.dim)
  }

  /** What a search compares is the sum of the squares, weighted or not, of how
      far the values it covers are from the entry. */
  lemma {:induction false} DistanceIsSum(x: seq<real>, from: nat, weight: seq<real>, cdbk: seq<int>, dim: nat, id: int, n: nat, f: int -> real, g: int -> real)
    requires forall k :: f(k) == RealAt(x, from + k) - Entry(cdbk, dim, id, k) as real
    requires forall k :: g(k) == RealAt(weight, k)
    ensures RealDistance(x, from, cdbk, dim, id, n) == RealSums.Sum(n, k => f(k) * f(k))
    ensures RealWeighted(x, from, weight, cdbk, dim, id, n) == RealSums.Sum(n, k => g(k) * (f(k) * f(k)))
  {
    if n > 0 {
      DistanceIsSum(x, from, weight, cdbk, dim, id, n - 1, f, g);
    }
  }

  /** The lowest of the entries below n nearest by d, or 0 if none is nearer
      than the start value. */
  ghost predicate RealNearest(d: int -> real, n: int, id: int) {
    if forall i :: 0 <= i < n ==> d(i) >= FLOAT_VERY_LARGE then id == 0
    else 0 <= id < n && (forall i :: 0 <= i < n ==> d(id) <= d(i)) && forall i :: 0 <= i < id ==> d(id) < d(i)
  }

  ghost predicate RealBest(d: int -> real, n: int, id: int, dist: real) {
    if forall i :: 0 <= i < n ==> d(i) >= FLOAT_VERY_LARGE then id == 0 && dist == FLOAT_VERY_LARGE
    else 0 <= id < n && dist == d(id) < FLOAT_VERY_LARGE && (forall i :: 0 <= i < n ==> d(id) <= d(i)) && forall i :: 0 <= i < id ==> d(id) < d(i)
  }

  lemma RealBestStep(d: int -> real, n: nat, id: int, dist: real)
    requires RealBest(d, n, id, dist)
    ensures if d(n) < dist then RealBest(d, n + 1, n, d(n)) else RealBest(d, n + 1, id, dist)
  {
  }

  lemma RealBestIsNearest(d: int -> real, n: nat, id: int, dist: real)
    requires RealBest(d, n, id, dist) && n > 0
    ensures RealNearest(d, n, id) && 0 <= id < n
  {
  }

  lemma RealBestStart(d: int -> real, dim: nat)
    ensures RealBest(d, 0, 0, FLOAT_VERY_LARGE) && Times(0, dim) == 0
  {
  }

  method RealRow(x: array<real>, st: Stage, weight: seq<real>, id: nat, ptr0: nat) returns (dist: real, ptr: nat)
    requires st.Fits(x.Length) && st.from + st.dim <= |weight| && ptr0 == Times(id, st.dim) && ptr0 + st.dim <= |st.cdbk|
    ensures dist == RealDistances(st, weight, x[..])(id) && ptr == ptr0 + st.dim
  {
    hide RealSquare, RealSums.RealTimes, Times;
    dist, ptr := 0.0, ptr0;
    for j := 0 to st.dim
      invariant ptr == ptr0 + j
      invariant dist == if st.weighted then RealWeighted(x[..], st.from, weight[st.from..], st.cdbk, st.dim, id, j)
                        else RealDistance(x[..], st.from, st.cdbk, st.dim, id, j)
    {
      var tmp := x[st.from + j] - st.cdbk[ptr] as real;
      ptr := ptr + 1;
      if st.weighted {
        dist := dist + RealSums.RealTimes(weight[st.from..][j], RealSquare(tmp));
      } else {
        dist := dist + RealSquare(tmp);
      }
    }
  }

  // ------------------------------------------------------------- the weights

  const M_PI := 3.14159265358979323846

  /** The distance from value k to the nearer neighbour. */
  function RealGap(lsp: seq<real>, k: nat): real
    requires k < |lsp|
  {
    var below := if k == 0 then lsp[0] else lsp[k] - lsp[k - 1];
    var above := if k == |lsp| - 1 then M_PI - lsp[k] else lsp[k + 1] - lsp[k];
    if above < below then above else below
  }

  ghost predicate RealDivides(lsp: seq<real>) {
    forall k {:trigger RealGap(lsp, k)} :: 0 <= k < |lsp| ==> 0.04 + RealGap(lsp, k) != 0.0
  }

  function RealWeight(gap: real): real
    requires 0.04 + gap != 0.0
  {
    10.0 / (0.04 + gap)
  }

  /** The weight times the gap and 0.04 is 10: the closer the angles, the more. */
  lemma WeightMeans(gap: real, gap': real)
    requires 0.0 <= gap < gap'
    ensures RealWeight(gap) * (0.04 + gap) == 10.0 && 250.0 >= RealWeight(gap) > RealWeight(gap') > 0.0
  {
    var w, w' := RealWeight(gap), RealWeight(gap');
    WeightTimes(gap);
    WeightTimes(gap');
    hide RealWeight;
    LargerQuotient(w, w', 0.04 + gap, 0.04 + gap', 10.0);
    LargerQuotient(250.0, w', 0.04, 0.04 + gap', 10.0);
    if gap > 0.0 {
      LargerQuotient(250.0, w, 0.04, 0.04 + gap, 10.0);
    }
  }

  lemma WeightTimes(gap: real)
    requires gap >= 0.0
    ensures RealWeight(gap) * (0.04 + gap) == 10.0
  {
    var d := 0.04 + gap;
    assert 10.0 / d * d == 10.0;
  }

  lemma LargerQuotient(w: real, w': real, d: real, d': real, p: real)
    requires 0.0 < d < d' && w * d == p == w' * d' && p > 0.0
    ensures w > w' > 0.0
  {
    if w' <= 0.0 {
      NotPositive(w', d');
      assert false;
    }
    if w <= w' {
      BothLarger(w, w', d, d');
      assert false;
    }
  }

  lemma NotPositive(w: real, d: real)
    requires w <= 0.0 < d
    ensures w * d <= 0.0
  {
  }

  lemma BothLarger(w: real, w': real, d: real, d': real)
    requires w <= w' && 0.0 < d < d' && w' > 0.0
    ensures w * d < w' * d'
  {
    assert w * d <= w' * d;
    assert w' * (d' - d) > 0.0;
  }

  /** Between angles in order the gap is the distance to the nearer neighbour. */
  lemma RealGapIsNearer(lsp: seq<real>, k: nat)
    requires k < |lsp|
    ensures var below := lsp[k] - (if k == 0 then 0.0 else lsp[k - 1]); var above := (if k == |lsp| - 1 then 3.14159265358979323846 else lsp[k + 1]) - lsp[k];
      RealGap(lsp, k) <= below && RealGap(lsp, k) <= above && (RealGap(lsp, k) == below || RealGap(lsp, k) == above)
  {
  }

  function RealWeights(lsp: seq<real>): (w: seq<real>)
    requires RealDivides(lsp)
    ensures |w| == |lsp|
  {
    seq(|lsp|, k requires 0 <= k < |lsp| => RealWeight(RealGap(lsp, k)))
  }

  /** compute_quant_weights */
  method RealQuantWeights(qlsp: array<real>, quant_weight: array<real>)
    requires qlsp != quant_weight && qlsp.Length == quant_weight.Length && RealDivides(qlsp[..])
    modifies quant_weight
    ensures quant_weight[..] == RealWeights(qlsp[..])
  {
    hide RealWeight;
    ghost var q := qlsp[..];
    var order := qlsp.Length;
    for i := 0 to order
      invariant qlsp[..] == q && forall k :: 0 <= k < i ==> quant_weight[k] == RealWeights(q)[k]
    {
      var tmp1, tmp2;
      if i == 0 {
        tmp1 := qlsp[i];
      } else {
        tmp1 := qlsp[i] - qlsp[i - 1];
      }
      if i == order - 1 {
        tmp2 := M_PI - qlsp[i];
      } else {
        tmp2 := qlsp[i + 1] - qlsp[i];
      }
      if tmp2 < tmp1 {
        tmp1 := tmp2;
      }
      assert tmp1 == RealGap(q, i) && RealWeights(q)[i] == RealWeight(RealGap(q, i));
      quant_weight[i] := RealWeight(tmp1);
    }
  }

  // ------------------------------------------------------------- the stages

  /** The residuals left by entry id, doubled if the stage says so. */
  function RealLeft(st: Stage, x: seq<real>, id: int): (y: seq<real>)
    ensures |y| == |x|
  {
    seq(|x|, k requires 0 <= k < |x| => RealLeftAt(st, x, id, k))
  }

  function RealLeftAt(st: Stage, x: seq<real>, id: int, k: int): real {
    if !Covers(st, k) then RealAt(x, k)
    else (if st.doubled then 2.0 else 1.0) * RealResidue(x, st.from, st.cdbk, st.dim, id, k - st.from)
  }

  /** lsp_quant or lsp_weight_quant and the doubling that may follow: the nearest
      entry, taken off x in place. */
  method RealSearch(st: Stage, x: array<real>, weight: seq<real>) returns (best_id: nat)
    requires st.Fits(x.Length) && x.Length == |weight|
    modifies x
    ensures best_id < 64 && RealNearest(RealDistances(st, weight, old(x[..])), 64, best_id)
    ensures x[..] == RealLeft(st, old(x[..]), best_id)
  {
    hide RealBest, RealNearest, Times, RealLeft, RealDistances;
    ghost var X := x[..];
    ghost var d := RealDistances(st, weight, X);
    var best_dist := FLOAT_VERY_LARGE;
    var ptr := 0;
    best_id := 0;
    RealBestStart(d, st.dim);
    for i := 0 to 64
      invariant x[..] == X && ptr == Times(i, st.dim) && 0 <= best_id && RealBest(d, i, best_id, best_dist)
    {
      RowFits(i, 64, st.dim);
      RealBestStep(d, i, best_id, best_dist);
      var dist;
      dist, ptr := RealRow(x, st, weight, i, ptr);
      if dist < best_dist {
        best_dist := dist;
        best_id := i;
      }
    }
    RealBestIsNearest(d, 64, best_id, best_dist);
    RealSubtract(st, x, best_id);
    LeftIs(st, X, best_id);
    hide RealMinus;
    if st.doubled {
      RealDouble(x, st.from, st.from + st.dim);
    }
  }

  function RealMinus(st: Stage, x: seq<real>, id: int): (y: seq<real>)
    ensures |y| == |x|
  {
    seq(|x|, k requires 0 <= k < |x| => if Covers(st, k) then RealResidue(x, st.from, st.cdbk, st.dim, id, k - st.from) else x[k])
  }

  lemma LeftIs(st: Stage, x: seq<real>, id: int)
    ensures var y := RealMinus(st, x, id);
      RealLeft(st, x, id) == seq(|x|, k requires 0 <= k < |x| => if st.doubled && Covers(st, k) then y[k] * 2.0 else y[k])
  {
    hide RealResidue;
  }

  method RealSubtract(st: Stage, x: array<real>, id: nat)
    requires st.Fits(x.Length) && id < 64
    modifies x
    ensures x[..] == RealMinus(st, old(x[..]), id)
  {
    ghost var X := x[..];
    RowFits(id, 64, st.dim);
    hide Times;
    for j := 0 to st.dim
      invariant forall k {:trigger x[k]} :: 0 <= k < x.Length ==>
        x[k] == (if st.from <= k < st.from + j then RealResidue(X, st.from, st.cdbk, st.dim, id, k - st.from) else X[k])
    {
      x[st.from + j] := x[st.from + j] - st.cdbk[Times(id, st.dim) + j] as real;
    }
  }

  method RealDouble(x: array<real>, from: nat, to: nat)
    requires from <= to <= x.Length
    modifies x
    ensures forall k {:trigger x[k]} :: 0 <= k < x.Length ==> x[k] == if from <= k < to then old(x[k]) * 2.0 else old(x[k])
  {
    for i := from to to
      invariant forall k {:trigger x[k]} :: 0 <= k < x.Length ==> x[k] == (if from <= k < i then old(x[k]) * 2.0 else old(x[k]))
    {
      x[i] := x[i] * 2.0;
    }
  }

  // ------------------------------------------------------------ the encoders

  function RealLinear(k: int, high: bool): real {
    if high then 0.3125 * k as real + 0.75 else 0.25 * k as real + 0.25
  }

  /** The start values are those of the fixed-point build, in radians. */
  lemma SameStart(k: int, high: bool)
    ensures RealLinear(k, high) * 8192.0 == Linear(k, high) as real
  {
  }

  function RealStart(lsp: seq<real>, high: bool): (x: seq<real>)
    ensures |x| == |lsp|
  {
    seq(|lsp|, k requires 0 <= k < |lsp| => 256.0 * (lsp[k] - RealLinear(k, high)))
  }

  /** The residual after the searches that chose ids. */
  function RealResidual(plan: seq<Stage>, x: seq<real>, ids: seq<int>): (y: seq<real>)
    requires |ids| <= |plan|
    ensures |y| == |x|
  {
    var n := |ids| - 1;
    if ids == [] then x else RealLeft(plan[n], RealResidual(plan, x, ids[..n]), ids[n])
  }

  /** Every search chose an entry nearest to what those before it left of x. */
  ghost predicate RealChosen(plan: seq<Stage>, x: seq<real>, weight: seq<real>, ids: seq<int>)
    requires AllFit(plan, |weight|)
  {
    ids == [] || (
      var n := |ids| - 1;
      && |ids| <= |plan| && RealChosen(plan, x, weight, ids[..n]) && 0 <= ids[n] < 64
      && RealNearest(RealDistances(plan[n], weight, RealResidual(plan, x, ids[..n])), 64, ids[n]))
  }

  lemma {:induction false} RealChosenFit(plan: seq<Stage>, x: seq<real>, weight: seq<real>, ids: seq<int>)
    requires AllFit(plan, |weight|) && RealChosen(plan, x, weight, ids)
    ensures AllIds(ids)
  {
    if ids != [] {
      RealChosenFit(plan, x, weight, ids[..|ids| - 1]);
    }
  }

  ghost predicate RealReached(plan: seq<Stage>, x: seq<real>, weight: seq<real>, ids: seq<int>, y: seq<real>)
    requires AllFit(plan, |weight|)
  {
    |ids| <= |plan| && RealChosen(plan, x, weight, ids) && y == RealResidual(plan, x, ids)
  }

  lemma RealNextChosen(plan: seq<Stage>, x: seq<real>, weight: seq<real>, ids: seq<int>, y: seq<real>, id: int)
    requires AllFit(plan, |weight|) && RealReached(plan, x, weight, ids, y) && |ids| < |plan|
    requires 0 <= id < 64 && RealNearest(RealDistances(plan[|ids|], weight, y), 64, id)
    ensures RealReached(plan, x, weight, ids + [id], RealLeft(plan[|ids|], y, id))
  {
    hide RealNearest, RealDistances, RealLeft;
    assert (ids + [id])[..|ids|] == ids;
  }

  /** The byte buffer is not the sample array, as their types already say. */
  ghost predicate RealApart(bits: SpeexBits, x: array<real>)
    reads bits
  {
    var o: object := bits.chars;
    o != x
  }

  /** A search, packed. */
  method RealStage(st: Stage, qlsp: array<real>, weight: seq<real>, bits: SpeexBits,
                   ghost plan: seq<Stage>, ghost x: seq<real>, ghost before: seq<bool>, ghost ids: seq<int>) returns (ghost ids': seq<int>)
    requires qlsp.Length == |weight| && AllFit(plan, |weight|) && |ids| < |plan| && st == plan[|ids|]
    requires RealReached(plan, x, weight, ids, qlsp[..]) && bits.owner && Packed(bits, before, ids) && RealApart(bits, qlsp)
    modifies qlsp, bits, bits.chars
    ensures |ids'| == |ids| + 1 && RealReached(plan, x, weight, ids', qlsp[..]) && Packed(bits, before, ids')
    ensures RealApart(bits, qlsp) && (bits.chars == old(bits.chars) || fresh(bits.chars))
  {
    hide RealNearest, RealLeft, RealDistances, IdBits, Times, RealReached;
    ghost var y := qlsp[..];
    var id := RealSearch(st, qlsp, weight);
    ids' := ids + [id];
    PackId(bits, id, before, ids);
    RealNextChosen(plan, x, weight, ids, y, id);
  }

  method RealInit(lsp: seq<real>, qlsp: array<real>, high: bool) returns (weight: seq<real>)
    requires |lsp| == qlsp.Length && RealDivides(lsp)
    modifies qlsp
    ensures weight == RealWeights(lsp) && qlsp[..] == RealStart(lsp, high)
  {
    hide RealLinear, RealGap, RealWeights;
    for i := 0 to qlsp.Length
      invariant forall k :: 0 <= k < i ==> qlsp[k] == lsp[k]
    {
      qlsp[i] := lsp[i];
    }
    assert qlsp[..] == lsp;
    var quant_weight := new real[qlsp.Length];
    RealQuantWeights(qlsp, quant_weight);
    weight := quant_weight[..];
    for i := 0 to qlsp.Length
      invariant forall k :: 0 <= k < qlsp.Length ==> qlsp[k] == if k < i then lsp[k] - RealLinear(k, high) else lsp[k]
    {
      qlsp[i] := qlsp[i] - RealLinear(i, high);
    }
    for i := 0 to qlsp.Length
      invariant forall k :: 0 <= k < qlsp.Length ==>
        qlsp[k] == (if k < i then 256.0 * (lsp[k] - RealLinear(k, high)) else lsp[k] - RealLinear(k, high))
    {
      qlsp[i] := 256.0 * qlsp[i];
    }
  }

  /** lsp less the residual in the last stage's scale. */
  function RealRebuilt(lsp: seq<real>, x: seq<real>, scale: real): (q: seq<real>)
    requires |x| == |lsp|
    ensures |q| == |lsp|
  {
    seq(|lsp|, k requires 0 <= k < |lsp| => lsp[k] - RealSums.RealTimes(x[k], scale))
  }

  method RealFinish(lsp: seq<real>, qlsp: array<real>, scale: real)
    requires |lsp| == qlsp.Length
    modifies qlsp
    ensures qlsp[..] == RealRebuilt(lsp, old(qlsp[..]), scale)
  {
    hide RealSums.RealTimes;
    ghost var X := qlsp[..];
    for i := 0 to qlsp.Length
      invariant forall k :: 0 <= k < qlsp.Length ==> qlsp[k] == if k < i then RealSums.RealTimes(X[k], scale) else X[k]
    {
      qlsp[i] := RealSums.RealTimes(qlsp[i], scale);
    }
    for i := 0 to qlsp.Length
      invariant forall k :: 0 <= k < qlsp.Length ==> qlsp[k] == if k < i then lsp[k] - RealSums.RealTimes(X[k], scale) else RealSums.RealTimes(X[k], scale)
    {
      qlsp[i] := lsp[i] - qlsp[i];
    }
  }

  const SCALE_256 := 0.0039062
  const SCALE_512 := 0.0019531
  const SCALE_1024 := 0.00097656

  /** lsp_quant_nb */
  method NbQuant(lsp: seq<real>, qlsp: array<real>, b: Books, bits: SpeexBits) returns (ghost ids: seq<int>)
    requires |lsp| == qlsp.Length == 10 && RealDivides(lsp) && AllFit(NbPlan(b), 10) && bits.Writing() && bits.owner && RealApart(bits, qlsp)
    modifies qlsp, bits, bits.chars
    ensures |ids| == 5 && RealChosen(NbPlan(b), RealStart(lsp, false), RealWeights(lsp), ids)
    ensures qlsp[..] == RealRebuilt(lsp, RealResidual(NbPlan(b), RealStart(lsp, false), ids), SCALE_1024)
    ensures Packed(bits, old(bits.Contents()), ids) && (bits.chars == old(bits.chars) || fresh(bits.chars))
  {
    hide Packed, RealChosen, RealRebuilt, RealStart, AllFit, RealWeights, RealDivides;
    ghost var x, before, plan := RealStart(lsp, false), bits.Contents(), NbPlan(b);
    NoIds(bits);
    var weight := RealInit(lsp, qlsp, false);
    NoRealChosen(plan, x, weight);
    hide RealResidual;
    ids := [];
    ids := RealStage(Stage(b.all, 0, 10, false, true), qlsp, weight, bits, plan, x, before, ids);
    ids := RealStage(Stage(b.low1, 0, 5, true, true), qlsp, weight, bits, plan, x, before, ids);
    ids := RealStage(Stage(b.low2, 0, 5, true, false), qlsp, weight, bits, plan, x, before, ids);
    ids := RealStage(Stage(b.high1, 5, 5, true, true), qlsp, weight, bits, plan, x, before, ids);
    ids := RealStage(Stage(b.high2, 5, 5, true, false), qlsp, weight, bits, plan, x, before, ids);
    RealFinish(lsp, qlsp, SCALE_1024);
  }

  /** lsp_quant_lbr */
  method LbrQuant(lsp: seq<real>, qlsp: array<real>, b: Books, bits: SpeexBits) returns (ghost ids: seq<int>)
    requires |lsp| == qlsp.Length == 10 && RealDivides(lsp) && AllFit(LbrPlan(b), 10) && bits.Writing() && bits.owner && RealApart(bits, qlsp)
    modifies qlsp, bits, bits.chars
    ensures |ids| == 3 && RealChosen(LbrPlan(b), RealStart(lsp, false), RealWeights(lsp), ids)
    ensures qlsp[..] == RealRebuilt(lsp, RealResidual(LbrPlan(b), RealStart(lsp, false), ids), SCALE_512)
    ensures Packed(bits, old(bits.Contents()), ids) && (bits.chars == old(bits.chars) || fresh(bits.chars))
  {
    hide Packed, RealChosen, RealRebuilt, RealStart, AllFit, RealWeights, RealDivides;
    ghost var x, before, plan := RealStart(lsp, false), bits.Contents(), LbrPlan(b);
    NoIds(bits);
    var weight := RealInit(lsp, qlsp, false);
    NoRealChosen(plan, x, weight);
    hide RealResidual;
    ids := [];
    ids := RealStage(Stage(b.all, 0, 10, false, true), qlsp, weight, bits, plan, x, before, ids);
    ids := RealStage(Stage(b.low1, 0, 5, true, false), qlsp, weight, bits, plan, x, before, ids);
    ids := RealStage(Stage(b.high1, 5, 5, true, false), qlsp, weight, bits, plan, x, before, ids);
    RealFinish(lsp, qlsp, SCALE_512);
  }

  /** lsp_quant_high */
  method HighQuant(lsp: seq<real>, qlsp: array<real>, cdbk: seq<int>, cdbk2: seq<int>, bits: SpeexBits)
    returns (ghost ids: seq<int>)
    requires |lsp| == qlsp.Length == 8 && RealDivides(lsp) && AllFit(HighPlan(cdbk, cdbk2), 8) && bits.Writing() && bits.owner && RealApart(bits, qlsp)
    modifies qlsp, bits, bits.chars
    ensures |ids| == 2 && RealChosen(HighPlan(cdbk, cdbk2), RealStart(lsp, true), RealWeights(lsp), ids)
    ensures qlsp[..] == RealRebuilt(lsp, RealResidual(HighPlan(cdbk, cdbk2), RealStart(lsp, true), ids), SCALE_512)
    ensures Packed(bits, old(bits.Contents()), ids) && (bits.chars == old(bits.chars) || fresh(bits.chars))
  {
    hide Packed, RealChosen, RealRebuilt, RealStart, AllFit, RealWeights, RealDivides;
    ghost var x, before, plan := RealStart(lsp, true), bits.Contents(), HighPlan(cdbk, cdbk2);
    NoIds(bits);
    var weight := RealInit(lsp, qlsp, true);
    NoRealChosen(plan, x, weight);
    hide RealResidual;
    ids := [];
    ids := RealStage(Stage(cdbk, 0, 8, false, true), qlsp, weight, bits, plan, x, before, ids);
    ids := RealStage(Stage(cdbk2, 0, 8, true, false), qlsp, weight, bits, plan, x, before, ids);
    RealFinish(lsp, qlsp, SCALE_512);
  }

  lemma NoRealChosen(plan: seq<Stage>, x: seq<real>, weight: seq<real>)
    requires AllFit(plan, |weight|)
    ensures RealReached(plan, x, weight, [], x)
  {
  }

  // ------------------------------------------------------------ the decoders

  /** What entry id of a stage adds to value k. */
  function RealAdded(st: Stage, scale: real, id: int, k: int): real {
    if Covers(st, k) then RealSums.RealTimes(scale, Entry(st.cdbk, st.dim, id, k - st.from) as real) else 0.0
  }

  function RealDecodedAt(plan: seq<Stage>, scales: seq<real>, ids: seq<int>, high: bool, k: int): real
    requires |ids| <= |plan| == |scales|
  {
    var n := |ids| - 1;
    if ids == [] then RealLinear(k, high)
    else RealDecodedAt(plan, scales, ids[..n], high, k) + RealAdded(plan[n], scales[n], ids[n], k)
  }

  function RealDecoded(plan: seq<Stage>, scales: seq<real>, ids: seq<int>, high: bool, order: nat): (lsp: seq<real>)
    requires |ids| <= |plan| == |scales|
    ensures |lsp| == order
  {
    seq(order, k => RealDecodedAt(plan, scales, ids, high, k))
  }

  const NB_REAL_SCALES := [SCALE_256, SCALE_512, SCALE_1024, SCALE_512, SCALE_1024]
  const LBR_REAL_SCALES := [SCALE_256, SCALE_512, SCALE_512]
  const HIGH_REAL_SCALES := [SCALE_256, SCALE_512]

  method RealInitDecoded(lsp: array<real>, high: bool)
    modifies lsp
    ensures forall k :: 0 <= k < lsp.Length ==> lsp[k] == RealLinear(k, high)
  {
    hide RealLinear;
    for i := 0 to lsp.Length
      invariant forall k :: 0 <= k < i ==> lsp[k] == RealLinear(k, high)
    {
      lsp[i] := RealLinear(i, high);
    }
  }

  method RealAddEntry(st: Stage, scale: real, lsp: array<real>, id: nat)
    requires st.Fits(lsp.Length) && id < 64
    modifies lsp
    ensures forall k {:trigger lsp[k]} :: 0 <= k < lsp.Length ==> lsp[k] == old(lsp[k]) + RealAdded(st, scale, id, k)
  {
    RowFits(id, 64, st.dim);
    hide Times, RealSums.RealTimes;
    for i := 0 to st.dim
      invariant forall k {:trigger lsp[k]} :: 0 <= k < lsp.Length ==>
        lsp[k] == (if k < st.from + i then old(lsp[k]) + RealAdded(st, scale, id, k) else old(lsp[k]))
    {
      lsp[st.from + i] := lsp[st.from + i] + RealSums.RealTimes(scale, st.cdbk[Times(id, st.dim) + i] as real);
    }
  }

  /** An index read, and its entry added. */
  method RealDecodeStage(st: Stage, scale: real, lsp: array<real>, bits: SpeexBits, ghost plan: seq<Stage>, ghost scales: seq<real>,
                         ghost high: bool, ghost u: seq<bool>, ghost s: nat)
    requires AllFit(plan, lsp.Length) && s < |plan| == |scales| && st == plan[s] && scale == scales[s]
    requires Took(bits, u, s) && RealApart(bits, lsp)
    requires lsp[..] == RealDecoded(plan, scales, Ids(u, s), high, lsp.Length)
    modifies lsp, bits
    ensures Took(bits, u, s + 1) && bits.chars == old(bits.chars)
    ensures lsp[..] == RealDecoded(plan, scales, Ids(u, s + 1), high, lsp.Length)
  {
    hide Took, IdAt, RealAdded, RealLinear;
    var id := ReadId(bits, u, s);
    RealAddEntry(st, scale, lsp, id);
    assert Ids(u, s + 1)[..s] == Ids(u, s);
  }

  lemma NothingDecoded(plan: seq<Stage>, scales: seq<real>, x: seq<real>, u: seq<bool>, high: bool, bits: SpeexBits)
    requires |plan| == |scales| && forall k :: 0 <= k < |x| ==> x[k] == RealLinear(k, high)
    requires bits.Valid() && u == Left(bits)
    ensures x == RealDecoded(plan, scales, Ids(u, 0), high, |x|) && Took(bits, u, 0)
  {
    hide RealLinear;
  }

  /** lsp_unquant_nb */
  method NbUnquant(lsp: array<real>, b: Books, bits: SpeexBits)
    requires lsp.Length == 10 && AllFit(NbPlan(b), 10) && bits.Valid() && RealApart(bits, lsp)
    modifies lsp, bits
    ensures var u := old(Left(bits));
      && lsp[..] == RealDecoded(NbPlan(b), NB_REAL_SCALES, Ids(u, 5), false, 10)
      && Took(bits, u, 5) && bits.chars == old(bits.chars)
  {
    hide Took, Ids, RealDecoded, RealLinear, AllFit, SpeexBits.Unread;
    ghost var u, p := Left(bits), NbPlan(b);
    RealInitDecoded(lsp, false);
    NothingDecoded(p, NB_REAL_SCALES, lsp[..], u, false, bits);
    RealDecodeStage(Stage(b.all, 0, 10, false, true), SCALE_256, lsp, bits, p, NB_REAL_SCALES, false, u, 0);
    RealDecodeStage(Stage(b.low1, 0, 5, true, true), SCALE_512, lsp, bits, p, NB_REAL_SCALES, false, u, 1);
    RealDecodeStage(Stage(b.low2, 0, 5, true, false), SCALE_1024, lsp, bits, p, NB_REAL_SCALES, false, u, 2);
    RealDecodeStage(Stage(b.high1, 5, 5, true, true), SCALE_512, lsp, bits, p, NB_REAL_SCALES, false, u, 3);
    RealDecodeStage(Stage(b.high2, 5, 5, true, false), SCALE_1024, lsp, bits, p, NB_REAL_SCALES, false, u, 4);
  }

  /** lsp_unquant_lbr */
  method LbrUnquant(lsp: array<real>, b: Books, bits: SpeexBits)
    requires lsp.Length == 10 && AllFit(LbrPlan(b), 10) && bits.Valid() && RealApart(bits, lsp)
    modifies lsp, bits
    ensures var u := old(Left(bits));
      && lsp[..] == RealDecoded(LbrPlan(b), LBR_REAL_SCALES, Ids(u, 3), false, 10)
      && Took(bits, u, 3) && bits.chars == old(bits.chars)
  {
    hide Took, Ids, RealDecoded, RealLinear, AllFit, SpeexBits.Unread;
    ghost var u, p := Left(bits), LbrPlan(b);
    RealInitDecoded(lsp, false);
    NothingDecoded(p, LBR_REAL_SCALES, lsp[..], u, false, bits);
    RealDecodeStage(Stage(b.all, 0, 10, false, true), SCALE_256, lsp, bits, p, LBR_REAL_SCALES, false, u, 0);
    RealDecodeStage(Stage(b.low1, 0, 5, true, false), SCALE_512, lsp, bits, p, LBR_REAL_SCALES, false, u, 1);
    RealDecodeStage(Stage(b.high1, 5, 5, true, false), SCALE_512, lsp, bits, p, LBR_REAL_SCALES, false, u, 2);
  }

  /** lsp_unquant_high */
  method HighUnquant(lsp: array<real>, cdbk: seq<int>, cdbk2: seq<int>, bits: SpeexBits)
    requires lsp.Length == 8 && AllFit(HighPlan(cdbk, cdbk2), 8) && bits.Valid() && RealApart(bits, lsp)
    modifies lsp, bits
    ensures var u := old(Left(bits));
      && lsp[..] == RealDecoded(HighPlan(cdbk, cdbk2), HIGH_REAL_SCALES, Ids(u, 2), true, 8)
      && Took(bits, u, 2) && bits.chars == old(bits.chars)
  {
    hide Took, Ids, RealDecoded, RealLinear, AllFit, SpeexBits.Unread;
    ghost var u, p := Left(bits), HighPlan(cdbk, cdbk2);
    RealInitDecoded(lsp, true);
    NothingDecoded(p, HIGH_REAL_SCALES, lsp[..], u, true, bits);
    RealDecodeStage(Stage(cdbk, 0, 8, false, true), SCALE_256, lsp, bits, p, HIGH_REAL_SCALES, true, u, 0);
    RealDecodeStage(Stage(cdbk2, 0, 8, true, false), SCALE_512, lsp, bits, p, HIGH_REAL_SCALES, true, u, 1);
  }

  // ------------------------------------------------------- how far they drift

  /** One value through one stage. */
  function StageValue(st: Stage, v: real, id: int, k: int): real {
    if !Covers(st, k) then v else (if st.doubled then 2.0 else 1.0) * (v - Entry(st.cdbk, st.dim, id, k - st.from) as real)
  }

  lemma ResidualStep(plan: seq<Stage>, x: seq<real>, ids: seq<int>, n: nat, k: nat)
    requires n < |ids| <= |plan| && k < |x|
    ensures RealResidual(plan, x, ids[..n + 1])[k] == StageValue(plan[n], RealResidual(plan, x, ids[..n])[k], ids[n], k)
  {
    assert ids[..n + 1][..n] == ids[..n];
    hide Entry;
  }

  lemma NoResidual(plan: seq<Stage>, x: seq<real>, ids: seq<int>)
    ensures RealResidual(plan, x, ids[..0]) == x
  {
  }

  lemma DecodedStepAt(plan: seq<Stage>, scales: seq<real>, ids: seq<int>, high: bool, n: nat, k: nat)
    requires n < |ids| <= |plan| == |scales|
    ensures RealDecodedAt(plan, scales, ids[..n + 1], high, k)
         == RealDecodedAt(plan, scales, ids[..n], high, k) + RealAdded(plan[n], scales[n], ids[n], k)
  {
    assert ids[..n + 1][..n] == ids[..n];
    hide RealAdded;
  }

  /** The three entries that make up value k of a narrowband frame. */
  function NbEntries(b: Books, ids: seq<int>, k: int): (real, real, real)
    requires |ids| == 5
  {
    (Entry(b.all, 10, ids[0], k) as real,
     Entry(if k < 5 then b.low1 else b.high1, 5, if k < 5 then ids[1] else ids[3], if k < 5 then k else k - 5) as real,
     Entry(if k < 5 then b.low2 else b.high2, 5, if k < 5 then ids[2] else ids[4], if k < 5 then k else k - 5) as real)
  }

  lemma NbValue(b: Books, v: real, ids: seq<int>, k: nat)
    requires |ids| == 5 && k < 10
    ensures var p := NbPlan(b); var (c0, c1, c2) := NbEntries(b, ids, k);
      StageValue(p[4], StageValue(p[3], StageValue(p[2], StageValue(p[1], StageValue(p[0], v, ids[0], k), ids[1], k), ids[2], k), ids[3], k), ids[4], k)
      == ((v - c0) * 2.0 - c1) * 2.0 - c2
  {
    hide Entry;
  }

  lemma NbResidualAt(b: Books, x: seq<real>, ids: seq<int>, k: nat)
    requires |x| == 10 && |ids| == 5 && k < 10
    ensures var (c0, c1, c2) := NbEntries(b, ids, k);
      RealResidual(NbPlan(b), x, ids)[k] == ((x[k] - c0) * 2.0 - c1) * 2.0 - c2
  {
    hide RealResidual, Entry, StageValue;
    var p := NbPlan(b);
    NoResidual(p, x, ids);
    ResidualStep(p, x, ids, 0, k);
    ResidualStep(p, x, ids, 1, k);
    ResidualStep(p, x, ids, 2, k);
    ResidualStep(p, x, ids, 3, k);
    ResidualStep(p, x, ids, 4, k);
    assert ids[..5] == ids;
    NbValue(b, x[k], ids, k);
  }

  lemma NbDecodedAt(b: Books, ids: seq<int>, k: nat)
    requires |ids| == 5 && k < 10
    ensures var (c0, c1, c2) := NbEntries(b, ids, k);
      RealDecoded(NbPlan(b), NB_REAL_SCALES, ids, false, 10)[k] == RealLinear(k, false) + SCALE_256 * c0 + SCALE_512 * c1 + SCALE_1024 * c2
  {
    var p := NbPlan(b);
    DecodedStepAt(p, NB_REAL_SCALES, ids, false, 0, k);
    DecodedStepAt(p, NB_REAL_SCALES, ids, false, 1, k);
    DecodedStepAt(p, NB_REAL_SCALES, ids, false, 2, k);
    DecodedStepAt(p, NB_REAL_SCALES, ids, false, 3, k);
    DecodedStepAt(p, NB_REAL_SCALES, ids, false, 4, k);
    assert ids[..5] == ids && ids[..0] == [];
    assert RealDecodedAt(p, NB_REAL_SCALES, [], false, k) == RealLinear(k, false);
    hide Entry, RealLinear;
  }

  /** Narrowband: what the encoder keeps and what the decoder rebuilds from the
      same indices differ by under three millionths of the distance from the
      start value and four hundred-millionths per codebook step, and are equal
      exactly when those cancel. */
  lemma NbDrift(b: Books, lsp: seq<real>, ids: seq<int>, k: nat)
    requires |lsp| == 10 && |ids| == 5 && k < 10
    ensures var q := RealRebuilt(lsp, RealResidual(NbPlan(b), RealStart(lsp, false), ids), SCALE_1024);
      var d := RealDecoded(NbPlan(b), NB_REAL_SCALES, ids, false, 10);
      var (c0, c1, c2) := NbEntries(b, ids, k);
      && q[k] - d[k] == 0.00000256 * (lsp[k] - RealLinear(k, false)) + 0.00000004 * c0 + 0.00000002 * c1
      && (q[k] == d[k] <==> 128.0 * (lsp[k] - RealLinear(k, false)) + 2.0 * c0 + c1 == 0.0)
  {
    NbResidualAt(b, RealStart(lsp, false), ids, k);
    NbDecodedAt(b, ids, k);
    var (c0, c1, c2) := NbEntries(b, ids, k);
    RebuiltAt(lsp, RealResidual(NbPlan(b), RealStart(lsp, false), ids), SCALE_1024, k);
    hide RealResidual, RealDecoded, RealRebuilt, NbEntries, RealLinear;
  }

  lemma RebuiltAt(lsp: seq<real>, x: seq<real>, scale: real, k: nat)
    requires |x| == |lsp| && k < |lsp|
    ensures RealRebuilt(lsp, x, scale)[k] == lsp[k] - x[k] * scale
  {
  }

  /** The two entries of value k at the low bit rate. */
  function LbrEntries(b: Books, ids: seq<int>, k: int): (real, real)
    requires |ids| == 3
  {
    (Entry(b.all, 10, ids[0], k) as real,
     Entry(if k < 5 then b.low1 else b.high1, 5, if k < 5 then ids[1] else ids[2], if k < 5 then k else k - 5) as real)
  }

  lemma LbrResidualAt(b: Books, x: seq<real>, ids: seq<int>, k: nat)
    requires |x| == 10 && |ids| == 3 && k < 10
    ensures var (c0, c1) := LbrEntries(b, ids, k); RealResidual(LbrPlan(b), x, ids)[k] == (x[k] - c0) * 2.0 - c1
  {
    hide RealResidual, Entry;
    var p := LbrPlan(b);
    NoResidual(p, x, ids);
    ResidualStep(p, x, ids, 0, k);
    ResidualStep(p, x, ids, 1, k);
    ResidualStep(p, x, ids, 2, k);
    assert ids[..3] == ids;
  }

  lemma LbrDecodedAt(b: Books, ids: seq<int>, k: nat)
    requires |ids| == 3 && k < 10
    ensures var (c0, c1) := LbrEntries(b, ids, k);
      RealDecoded(LbrPlan(b), LBR_REAL_SCALES, ids, false, 10)[k] == RealLinear(k, false) + SCALE_256 * c0 + SCALE_512 * c1
  {
    var p := LbrPlan(b);
    DecodedStepAt(p, LBR_REAL_SCALES, ids, false, 0, k);
    DecodedStepAt(p, LBR_REAL_SCALES, ids, false, 1, k);
    DecodedStepAt(p, LBR_REAL_SCALES, ids, false, 2, k);
    assert ids[..3] == ids && ids[..0] == [];
    assert RealDecodedAt(p, LBR_REAL_SCALES, [], false, k) == RealLinear(k, false);
    hide Entry, RealLinear;
  }

  /** Low bit rate: the entries cancel, so the two are equal exactly when the
      input is the start value. */
  lemma LbrDrift(b: Books, lsp: seq<real>, ids: seq<int>, k: nat)
    requires |lsp| == 10 && |ids| == 3 && k < 10
    ensures var q := RealRebuilt(lsp, RealResidual(LbrPlan(b), RealStart(lsp, false), ids), SCALE_512);
      var d := RealDecoded(LbrPlan(b), LBR_REAL_SCALES, ids, false, 10);
      && q[k] - d[k] == 0.0000128 * (lsp[k] - RealLinear(k, false))
      && (q[k] == d[k] <==> lsp[k] == RealLinear(k, false))
  {
    LbrResidualAt(b, RealStart(lsp, false), ids, k);
    LbrDecodedAt(b, ids, k);
    RebuiltAt(lsp, RealResidual(LbrPlan(b), RealStart(lsp, false), ids), SCALE_512, k);
    hide RealResidual, RealDecoded, RealRebuilt, LbrEntries, RealLinear;
  }

  lemma HighAt(cdbk: seq<int>, cdbk2: seq<int>, x: seq<real>, ids: seq<int>, k: nat)
    requires |x| == 8 && |ids| == 2 && k < 8
    ensures var p := HighPlan(cdbk, cdbk2);
      var c0, c1 := Entry(cdbk, 8, ids[0], k) as real, Entry(cdbk2, 8, ids[1], k) as real;
      && RealResidual(p, x, ids)[k] == (x[k] - c0) * 2.0 - c1
      && RealDecoded(p, HIGH_REAL_SCALES, ids, true, 8)[k] == RealLinear(k, true) + SCALE_256 * c0 + SCALE_512 * c1
  {
    var p := HighPlan(cdbk, cdbk2);
    NoResidual(p, x, ids);
    ResidualStep(p, x, ids, 0, k);
    ResidualStep(p, x, ids, 1, k);
    DecodedStepAt(p, HIGH_REAL_SCALES, ids, true, 0, k);
    DecodedStepAt(p, HIGH_REAL_SCALES, ids, true, 1, k);
    assert ids[..2] == ids && ids[..0] == [];
    assert RealDecodedAt(p, HIGH_REAL_SCALES, [], true, k) == RealLinear(k, true);
    hide Entry, RealResidual, RealLinear;
  }

  /** High band: the same. */
  lemma HighDrift(cdbk: seq<int>, cdbk2: seq<int>, lsp: seq<real>, ids: seq<int>, k: nat)
    requires |lsp| == 8 && |ids| == 2 && k < 8
    ensures var p := HighPlan(cdbk, cdbk2);
      var q, d := RealRebuilt(lsp, RealResidual(p, RealStart(lsp, true), ids), SCALE_512), RealDecoded(p, HIGH_REAL_SCALES, ids, true, 8);
      && q[k] - d[k] == 0.0000128 * (lsp[k] - RealLinear(k, true))
      && (q[k] == d[k] <==> lsp[k] == RealLinear(k, true))
  {
    HighAt(cdbk, cdbk2, RealStart(lsp, true), ids, k);
    RebuiltAt(lsp, RealResidual(HighPlan(cdbk, cdbk2), RealStart(lsp, true), ids), SCALE_512, k);
    hide RealResidual, RealDecoded, RealRebuilt, RealLinear, Entry;
  }

  /** Through the bits, low bit rate: kept and received differ by 12.8 millionths
      of the distance from the start value, and by nothing else. */
  method LbrSent(lsp: seq<real>, b: Books) returns (kept: seq<real>, got: seq<real>)
    requires |lsp| == 10 && RealDivides(lsp) && AllFit(LbrPlan(b), 10)
    ensures |kept| == |got| == 10
    ensures forall k :: 0 <= k < 10 ==> kept[k] - got[k] == 0.0000128 * (lsp[k] - RealLinear(k, false))
  {
    hide RealRebuilt, RealResidual, RealChosen, RealDecoded, RealStart, RealLinear, IdBits, Ids, AllFit, RealWeights, RealDivides, Took, LbrPlan, SpeexBits.Unread;
    var bits := new SpeexBits();
    var qlsp, rlsp := new real[10], new real[10];
    ghost var ids := LbrQuant(lsp, qlsp, b, bits);
    kept := qlsp[..];
    RealChosenFit(LbrPlan(b), RealStart(lsp, false), RealWeights(lsp), ids);
    IdsBack(ids);
    bits.Rewind();
    LbrUnquant(rlsp, b, bits);
    got := rlsp[..];
    forall k: nat | k < 10
      ensures kept[k] - got[k] == 0.0000128 * (lsp[k] - RealLinear(k, false))
    {
      LbrDrift(b, lsp, ids, k);
    }
  }

  /** High band. */
  method HighSent(lsp: seq<real>, cdbk: seq<int>, cdbk2: seq<int>) returns (kept: seq<real>, got: seq<real>)
    requires |lsp| == 8 && RealDivides(lsp) && AllFit(HighPlan(cdbk, cdbk2), 8)
    ensures |kept| == |got| == 8
    ensures forall k :: 0 <= k < 8 ==> kept[k] - got[k] == 0.0000128 * (lsp[k] - RealLinear(k, true))
  {
    hide RealRebuilt, RealResidual, RealChosen, RealDecoded, RealStart, RealLinear, IdBits, Ids, AllFit, RealWeights, RealDivides, Took, HighPlan, SpeexBits.Unread;
    var bits := new SpeexBits();
    var qlsp, rlsp := new real[8], new real[8];
    ghost var ids := HighQuant(lsp, qlsp, cdbk, cdbk2, bits);
    kept := qlsp[..];
    RealChosenFit(HighPlan(cdbk, cdbk2), RealStart(lsp, true), RealWeights(lsp), ids);
    IdsBack(ids);
    bits.Rewind();
    HighUnquant(rlsp, cdbk, cdbk2, bits);
    got := rlsp[..];
    forall k: nat | k < 8
      ensures kept[k] - got[k] == 0.0000128 * (lsp[k] - RealLinear(k, true))
    {
      HighDrift(cdbk, cdbk2, lsp, ids, k);
    }
  }

  /** Narrowband: with the indices that were sent. */
  method NbSent(lsp: seq<real>, b: Books) returns (kept: seq<real>, got: seq<real>, ghost ids: seq<int>)
    requires |lsp| == 10 && RealDivides(lsp) && AllFit(NbPlan(b), 10)
    ensures |kept| == |got| == 10 && |ids| == 5 && RealChosen(NbPlan(b), RealStart(lsp, false), RealWeights(lsp), ids)
    ensures forall k {:trigger NbEntries(b, ids, k)} :: 0 <= k < 10 ==> var (c0, c1, c2) := NbEntries(b, ids, k);
      && kept[k] - got[k] == 0.00000256 * (lsp[k] - RealLinear(k, false)) + 0.00000004 * c0 + 0.00000002 * c1
      && (kept[k] == got[k] <==> 128.0 * (lsp[k] - RealLinear(k, false)) + 2.0 * c0 + c1 == 0.0)
  {
    hide RealRebuilt, RealResidual, RealChosen, RealDecoded, RealStart, RealLinear, IdBits, Ids, AllFit, RealWeights, RealDivides, Took, NbPlan, NbEntries, SpeexBits.Unread;
    var bits := new SpeexBits();
    var qlsp, rlsp := new real[10], new real[10];
    ids := NbQuant(lsp, qlsp, b, bits);
    kept := qlsp[..];
    RealChosenFit(NbPlan(b), RealStart(lsp, false), RealWeights(lsp), ids);
    IdsBack(ids);
    bits.Rewind();
    NbUnquant(rlsp, b, bits);
    got := rlsp[..];
    forall k: nat | k < 10
      ensures var (c0, c1, c2) := NbEntries(b, ids, k);
        && kept[k] - got[k] == 0.00000256 * (lsp[k] - RealLinear(k, false)) + 0.00000004 * c0 + 0.00000002 * c1
        && (kept[k] == got[k] <==> 128.0 * (lsp[k] - RealLinear(k, false)) + 2.0 * c0 + c1 == 0.0)
    {
      NbDrift(b, lsp, ids, k);
    }
  }
}
