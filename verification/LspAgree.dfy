/** When the LSPs the fixed-point encoder keeps are those the decoder rebuilds,
    and the round trips through the bits. */
module LspAgree {
  import opened IntArith
  import opened Bits
  import opened QuantLsp

  // ------------------------------------------------------ a caller's condition

  /** Encoder and decoder hold the same value k. */
  ghost predicate Same(plan: seq<Stage>, scales: seq<int>, lsp: seq<int>, ids: seq<int>, high: bool, half: nat, k: nat)
    requires |ids| == |plan| == |scales| && k < |lsp| && half > 0
  {
    Rebuilt(lsp, Residual(plan, Start(lsp, high), ids), half)[k] == Decoded(plan, scales, ids, high, |lsp|)[k]
  }

  ghost predicate NbSame(b: Books, lsp: seq<int>, ids: seq<int>, k: nat)
    requires k < |lsp|
  {
    b.Valid() && |ids| == 5 && AllIds(ids) ==> Same(NbPlan(b), NB_SCALES, lsp, ids, false, 2, k)
  }

  ghost predicate LbrSame(b: Books, lsp: seq<int>, ids: seq<int>, k: nat)
    requires k < |lsp|
  {
    b.Valid() && |ids| == 3 && AllIds(ids) ==> Same(LbrPlan(b), LBR_SCALES, lsp, ids, false, 1, k)
  }

  ghost predicate HighSame(cdbk: seq<int>, cdbk2: seq<int>, lsp: seq<int>, ids: seq<int>, k: nat)
    requires k < |lsp|
  {
    |cdbk| == |cdbk2| == 512 && Signed8(cdbk) && Signed8(cdbk2) && |ids| == 2 && AllIds(ids) ==>
      Same(HighPlan(cdbk, cdbk2), HIGH_SCALES, lsp, ids, true, 1, k)
  }

  /** All entries of all codebooks are c. */
  ghost predicate Constant(plan: seq<Stage>, c: int) {
    forall n, i :: 0 <= n < |plan| && 0 <= i < |plan[n].cdbk| ==> plan[n].cdbk[i] == c
  }

  function Filled(n: nat, c: int): (s: seq<int>)
    ensures |s| == n
  {
    seq(n, _ => c)
  }

  function FilledBooks(c: int): Books {
    Books(Filled(640, c), Filled(320, c), Filled(320, c), Filled(320, c), Filled(320, c))
  }

  lemma ConstantEntry(cdbk: seq<int>, dim: nat, id: int, j: int, c: int)
    requires |cdbk| == Times(64, dim) && 0 <= id < 64 && 0 <= j < dim && forall i :: 0 <= i < |cdbk| ==> cdbk[i] == c
    ensures Entry(cdbk, dim, id, j) == c
  {
    RowFits(id, 64, dim);
    hide Times;
  }

  /** With such codebooks every value is as far from its start as they reach. */
  lemma {:induction false} ConstantDecoded(plan: seq<Stage>, scales: seq<int>, ids: seq<int>, high: bool, order: nat, half: nat, k: nat, c: int)
    requires Matched(plan, scales, order, half) && |ids| <= |plan| && AllIds(ids) && Constant(plan, c) && k < order
    ensures DecodedAt(plan, scales, ids, high, k) == Linear(k, high) + Times(Reach(plan, scales, |ids|, k), c)
  {
    hide *;
    StagesFit(plan, scales, order, half);
    AddScale(0, 0, c);
    DecodedParts(plan, scales, ids, high, k);
    if ids != [] {
      var n := |ids| - 1;
      AllIdsFront(ids);
      ConstantDecoded(plan, scales, ids[..n], high, order, half, k, c);
      StageFits(plan, scales, order, half, n);
      ConstantAdded(plan, scales[n], order, n, ids[n], k, c);
      AddScale(Reach(plan, scales, n, k), if Covers(plan[n], k) then scales[n] else 0, c);
    }
  }

  lemma AllIdsFront(ids: seq<int>)
    requires AllIds(ids) && ids != []
    ensures AllIds(ids[..|ids| - 1]) && 0 <= ids[|ids| - 1] < 64
  {
  }

  lemma DecodedParts(plan: seq<Stage>, scales: seq<int>, ids: seq<int>, high: bool, k: nat)
    requires |ids| <= |plan| == |scales|
    ensures ids == [] ==> DecodedAt(plan, scales, ids, high, k) == Linear(k, high) && Reach(plan, scales, 0, k) == 0
    ensures ids != [] ==> var n := |ids| - 1;
      && DecodedAt(plan, scales, ids, high, k) == DecodedAt(plan, scales, ids[..n], high, k) + Added(plan[n], scales[n], ids[n], k)
      && Reach(plan, scales, n + 1, k) == Reach(plan, scales, n, k) + if Covers(plan[n], k) then scales[n] else 0
  {
    hide Added, Linear;
  }

  lemma ConstantAdded(plan: seq<Stage>, scale: int, order: nat, n: nat, id: int, k: nat, c: int)
    requires n < |plan| && plan[n].Fits(order) && Constant(plan, c) && 0 <= id < 64
    ensures Added(plan[n], scale, id, k) == Times(if Covers(plan[n], k) then scale else 0, c)
  {
    if Covers(plan[n], k) {
      ConstantEntry(plan[n].cdbk, plan[n].dim, id, k - plan[n].from, c);
    }
    hide Entry;
  }

  lemma AddScale(r: int, scale: int, c: int)
    ensures Times(r + scale, c) == Times(r, c) + Times(scale, c) && Times(0, c) == 0
  {
  }

  ghost predicate OneAngle(lsp: seq<int>, k: nat) {
    k < |lsp| && 0 <= lsp[k] < 32768
  }

  lemma SameIff(plan: seq<Stage>, scales: seq<int>, lsp: seq<int>, ids: seq<int>, high: bool, half: nat, k: nat)
    requires (half == 1 || half == 2) && Matched(plan, scales, |lsp|, half) && |ids| == |plan| && OneAngle(lsp, k)
    requires |lsp| <= 10 && (high ==> |lsp| <= 8)
    ensures |scales| == |plan|
      && (Same(plan, scales, lsp, ids, high, half, k) <==> Fits16(Times(2 * half, lsp[k] - DecodedAt(plan, scales, ids, high, k))))
  {
    AngleAt(lsp, k);
    hide *;
    StagesFit(plan, scales, |lsp|, half);
    EncoderAgrees(plan, scales, lsp, ids, high, half, k);
    DecodedIs(plan, scales, ids, high, |lsp|, k);
    SameIs(plan, scales, lsp, ids, high, half, k);
  }

  lemma AngleAt(lsp: seq<int>, k: nat)
    requires OneAngle(lsp, k)
    ensures k < |lsp| && 0 <= lsp[k] < 32768
  {
  }

  lemma SameIs(plan: seq<Stage>, scales: seq<int>, lsp: seq<int>, ids: seq<int>, high: bool, half: nat, k: nat)
    requires |ids| == |plan| == |scales| && k < |lsp| && half > 0
    ensures Same(plan, scales, lsp, ids, high, half, k)
       <==> Rebuilt(lsp, Residual(plan, Start(lsp, high), ids), half)[k] == Decoded(plan, scales, ids, high, |lsp|)[k]
  {
  }

  /** Within reach on both sides, whatever the codebooks hold. */
  lemma AlwaysSame(plan: seq<Stage>, scales: seq<int>, lsp: seq<int>, ids: seq<int>, high: bool, half: nat, k: nat, R: int)
    requires (half == 1 || half == 2) && Matched(plan, scales, |lsp|, half) && |ids| == |plan| && OneAngle(lsp, k)
    requires |lsp| <= 10 && (high ==> |lsp| <= 8) && Reach(plan, scales, |plan|, k) == R
    requires var t := lsp[k] - Linear(k, high); half * (t - 127 * R) >= -16384 && half * (t + 128 * R) < 16384
    ensures |scales| == |plan| && Same(plan, scales, lsp, ids, high, half, k)
  {
    hide *;
    AngleAt(lsp, k);
    SameIff(plan, scales, lsp, ids, high, half, k);
    DecodedFits(plan, scales, ids, high, |lsp|, half, k);
    Between(half, lsp[k] - DecodedAt(plan, scales, ids, high, k), lsp[k] - Linear(k, high), R);
  }

  lemma StagesFit(plan: seq<Stage>, scales: seq<int>, order: nat, half: nat)
    requires Matched(plan, scales, order, half)
    ensures |scales| == |plan|
  {
  }

  lemma Between(half: nat, x: int, t: int, R: int)
    requires (half == 1 || half == 2) && t - 127 * R <= x <= t + 128 * R
    requires half * (t - 127 * R) >= -16384 && half * (t + 128 * R) < 16384
    ensures Fits16(Times(2 * half, x))
  {
  }

  /** Out of reach on one side, some codebook makes them differ. */
  lemma SometimesNot(plan: seq<Stage>, scales: seq<int>, lsp: seq<int>, ids: seq<int>, high: bool, half: nat, k: nat, R: int, c: int)
    requires (half == 1 || half == 2) && Matched(plan, scales, |lsp|, half) && |ids| == |plan| && AllIds(ids) && OneAngle(lsp, k)
    requires |lsp| <= 10 && (high ==> |lsp| <= 8) && Reach(plan, scales, |plan|, k) == R && Constant(plan, c)
    requires var t := lsp[k] - Linear(k, high) - R * c; half * t < -16384 || half * t >= 16384
    ensures |scales| == |plan| && !Same(plan, scales, lsp, ids, high, half, k)
  {
    hide *;
    AngleAt(lsp, k);
    SameIff(plan, scales, lsp, ids, high, half, k);
    ConstantDecoded(plan, scales, ids, high, |lsp|, half, k, c);
    TimesIs(R, c);
    Outside(half, lsp[k] - Linear(k, high) - R * c);
  }

  lemma TimesIs(a: int, b: int)
    ensures Times(a, b) == a * b
  {
  }

  lemma FarOut(half: nat, x: int, t: int)
    requires (half == 1 || half == 2) && half * t >= 16384 && x >= t
    ensures !Fits16(Times(2 * half, x))
  {
  }

  lemma Outside(half: nat, t: int)
    requires (half == 1 || half == 2) && (half * t < -16384 || half * t >= 16384)
    ensures !Fits16(Times(2 * half, t))
  {
  }

  lemma ConstantBooks(c: int)
    requires -128 <= c < 128
    ensures FilledBooks(c).Valid() && Constant(NbPlan(FilledBooks(c)), c) && Constant(LbrPlan(FilledBooks(c)), c)
    ensures Constant(HighPlan(Filled(512, c), Filled(512, c)), c) && Signed8(Filled(512, c))
  {
  }

  /** Narrowband: whatever the codebooks hold and the searches choose, exactly
      for inputs from 1080 below the start value to 1023 above. */
  lemma NbAlwaysSame(lsp: seq<int>, k: nat)
    requires |lsp| == 10 && OneAngle(lsp, k)
    ensures (forall b, ids :: NbSame(b, lsp, ids, k)) <==> -1080 <= lsp[k] - Linear(k, false) <= 1023
  {
    hide Same, Matched, Linear, Reach;
    var t := lsp[k] - Linear(k, false);
    if -1080 <= t <= 1023 {
      forall b: Books, ids: seq<int>
        ensures NbSame(b, lsp, ids, k)
      {
        if b.Valid() && |ids| == 5 {
          NbMatched(b);
          AlwaysSame(NbPlan(b), NB_SCALES, lsp, ids, false, 2, k, 56);
        }
      }
    } else {
      var c := if t < 0 then 127 else -128;
      var b, ids := FilledBooks(c), [0, 0, 0, 0, 0];
      ConstantBooks(c);
      NbMatched(b);
      SometimesNot(NbPlan(b), NB_SCALES, lsp, ids, false, 2, k, 56, c);
      assert !NbSame(b, lsp, ids, k);
    }
  }

  /** Low bit rate: exactly from 10288 below to 10239 above. */
  lemma LbrAlwaysSame(lsp: seq<int>, k: nat)
    requires |lsp| == 10 && OneAngle(lsp, k)
    ensures (forall b, ids :: LbrSame(b, lsp, ids, k)) <==> -10288 <= lsp[k] - Linear(k, false) <= 10239
  {
    hide Same, Matched, Linear, Reach;
    var t := lsp[k] - Linear(k, false);
    if -10288 <= t <= 10239 {
      forall b: Books, ids: seq<int>
        ensures LbrSame(b, lsp, ids, k)
      {
        if b.Valid() && |ids| == 3 {
          LbrMatched(b);
          AlwaysSame(LbrPlan(b), LBR_SCALES, lsp, ids, false, 1, k, 48);
        }
      }
    } else {
      var c := if t < 0 then 127 else -128;
      var b, ids := FilledBooks(c), [0, 0, 0];
      ConstantBooks(c);
      LbrMatched(b);
      SometimesNot(LbrPlan(b), LBR_SCALES, lsp, ids, false, 1, k, 48, c);
      assert !LbrSame(b, lsp, ids, k);
    }
  }

  /** High band: the same range around its own start values. */
  lemma HighAlwaysSame(lsp: seq<int>, k: nat)
    requires |lsp| == 8 && OneAngle(lsp, k)
    ensures (forall cdbk, cdbk2, ids :: HighSame(cdbk, cdbk2, lsp, ids, k)) <==> -10288 <= lsp[k] - Linear(k, true) <= 10239
  {
    hide Same, Matched, Linear, Reach;
    var t := lsp[k] - Linear(k, true);
    if -10288 <= t <= 10239 {
      forall cdbk: seq<int>, cdbk2: seq<int>, ids: seq<int>
        ensures HighSame(cdbk, cdbk2, lsp, ids, k)
      {
        if |cdbk| == |cdbk2| == 512 && Signed8(cdbk) && Signed8(cdbk2) && |ids| == 2 {
          HighMatched(cdbk, cdbk2);
          AlwaysSame(HighPlan(cdbk, cdbk2), HIGH_SCALES, lsp, ids, true, 1, k, 48);
        }
      }
    } else {
      var c := if t < 0 then 127 else -128;
      var cdbk, ids := Filled(512, c), [0, 0];
      ConstantBooks(c);
      HighMatched(cdbk, cdbk);
      SometimesNot(HighPlan(cdbk, cdbk), HIGH_SCALES, lsp, ids, true, 1, k, 48, c);
      assert !HighSame(cdbk, cdbk, lsp, ids, k);
    }
  }

  // ---------------------------------------------------------- failing inputs

  /** A first LSP of 25000 is never kept as it is rebuilt, whatever the
      codebooks and indices: narrowband and low bit rate. */
  lemma NeverSame(b: Books, lsp: seq<int>, nb: seq<int>, lbr: seq<int>)
    requires b.Valid() && |lsp| == 10 && lsp[0] == 25000 && |nb| == 5 && |lbr| == 3
    ensures !Same(NbPlan(b), NB_SCALES, lsp, nb, false, 2, 0)
    ensures !Same(LbrPlan(b), LBR_SCALES, lsp, lbr, false, 1, 0)
  {
    NbMatched(b);
    LbrMatched(b);
    hide Same, Matched, Reach;
    FarSame(NbPlan(b), NB_SCALES, lsp, nb, false, 2, 56);
    FarSame(LbrPlan(b), LBR_SCALES, lsp, lbr, false, 1, 48);
  }

  lemma FarSame(plan: seq<Stage>, scales: seq<int>, lsp: seq<int>, ids: seq<int>, high: bool, half: nat, R: int)
    requires (half == 1 || half == 2) && Matched(plan, scales, |lsp|, half) && |ids| == |plan| && OneAngle(lsp, 0)
    requires |lsp| <= 10 && (high ==> |lsp| <= 8) && Reach(plan, scales, |plan|, 0) == R
    requires half * (lsp[0] - Linear(0, high) - 127 * R) >= 16384
    ensures |scales| == |plan| && !Same(plan, scales, lsp, ids, high, half, 0)
  {
    hide *;
    AngleAt(lsp, 0);
    SameIff(plan, scales, lsp, ids, high, half, 0);
    DecodedFits(plan, scales, ids, high, |lsp|, half, 0);
    FarOut(half, lsp[0] - DecodedAt(plan, scales, ids, high, 0), lsp[0] - Linear(0, high) - 127 * R);
  }

  /** In the high band it depends on the codebooks. */
  lemma HighNotSame(lsp: seq<int>)
    requires |lsp| == 8 && lsp[0] == 25000
    ensures var cdbk := Filled(512, -128); !HighSame(cdbk, cdbk, lsp, [0, 0], 0)
  {
    var cdbk := Filled(512, -128);
    ConstantBooks(-128);
    HighMatched(cdbk, cdbk);
    hide Same, Matched, Reach;
    SometimesNot(HighPlan(cdbk, cdbk), HIGH_SCALES, lsp, [0, 0], true, 1, 0, 48, -128);
  }

  // -------------------------------------------------------- the round trips

  /** A narrowband frame's LSPs sent and received: each value the encoder kept
      is the one received exactly when it is within one radian of the input. */
  method NbRoundTrip(lsp: seq<int>, b: Books) returns (kept: seq<int>, got: seq<int>)
    requires |lsp| == 10 && Angles(lsp) && Divides(lsp) && b.Valid()
    ensures |kept| == |got| == 10
    ensures forall k :: 0 <= k < 10 ==> (kept[k] == got[k] <==> -8192 <= lsp[k] - got[k] < 8192)
  {
    hide Rebuilt, Residual, Chosen, Decoded, Start, Angles, Books.Valid, IdBits, Ids, AllFit, Took, NbPlan, SpeexBits.Unread;
    var bits := new SpeexBits();
    var qlsp, rlsp := new int[10], new int[10];
    PlansFit(b);
    ghost var ids := LspQuantNb(lsp, qlsp, b, bits);
    kept := qlsp[..];
    ChosenFit(NbPlan(b), Start(lsp, false), Weights(lsp), ids);
    IdsBack(ids);
    bits.Rewind();
    LspUnquantNb(rlsp, b, bits);
    got := rlsp[..];
    forall k: nat | k < 10
      ensures kept[k] == got[k] <==> -8192 <= lsp[k] - got[k] < 8192
    {
      NbAgrees(b, lsp, ids, k);
    }
  }

  /** The same at the low bit rate, within two radians. */
  method LbrRoundTrip(lsp: seq<int>, b: Books) returns (kept: seq<int>, got: seq<int>)
    requires |lsp| == 10 && Angles(lsp) && Divides(lsp) && b.Valid()
    ensures |kept| == |got| == 10
    ensures forall k :: 0 <= k < 10 ==> (kept[k] == got[k] <==> -16384 <= lsp[k] - got[k] < 16384)
  {
    hide Rebuilt, Residual, Chosen, Decoded, Start, Angles, Books.Valid, IdBits, Ids, AllFit, Took, LbrPlan, SpeexBits.Unread;
    var bits := new SpeexBits();
    var qlsp, rlsp := new int[10], new int[10];
    PlansFit(b);
    ghost var ids := LspQuantLbr(lsp, qlsp, b, bits);
    kept := qlsp[..];
    ChosenFit(LbrPlan(b), Start(lsp, false), Weights(lsp), ids);
    IdsBack(ids);
    bits.Rewind();
    LspUnquantLbr(rlsp, b, bits);
    got := rlsp[..];
    forall k: nat | k < 10
      ensures kept[k] == got[k] <==> -16384 <= lsp[k] - got[k] < 16384
    {
      LbrAgrees(b, lsp, ids, k);
    }
  }

  /** And of the high band. */
  method HighRoundTrip(lsp: seq<int>, cdbk: seq<int>, cdbk2: seq<int>) returns (kept: seq<int>, got: seq<int>)
    requires |lsp| == 8 && Angles(lsp) && Divides(lsp) && |cdbk| == |cdbk2| == 512 && Signed8(cdbk) && Signed8(cdbk2)
    ensures |kept| == |got| == 8
    ensures forall k :: 0 <= k < 8 ==> (kept[k] == got[k] <==> -16384 <= lsp[k] - got[k] < 16384)
  {
    hide Rebuilt, Residual, Chosen, Decoded, Start, Angles, Signed8, IdBits, Ids, AllFit, Took, HighPlan, SpeexBits.Unread;
    var bits := new SpeexBits();
    var qlsp, rlsp := new int[8], new int[8];
    HighPlanFits(cdbk, cdbk2);
    ghost var ids := LspQuantHigh(lsp, qlsp, cdbk, cdbk2, bits);
    kept := qlsp[..];
    ChosenFit(HighPlan(cdbk, cdbk2), Start(lsp, true), Weights(lsp), ids);
    IdsBack(ids);
    bits.Rewind();
    LspUnquantHigh(rlsp, cdbk, cdbk2, bits);
    got := rlsp[..];
    forall k: nat | k < 8
      ensures kept[k] == got[k] <==> -16384 <= lsp[k] - got[k] < 16384
    {
      HighAgrees(cdbk, cdbk2, lsp, ids, k);
    }
  }
}
