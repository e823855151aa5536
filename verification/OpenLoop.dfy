/** The open-loop pitch candidates of ltp.c, and the pitch search over them. */
module OpenLoop {
  import opened IntArith
  import opened RealSums
  import opened Vq
  import opened BitSeqs
  import opened Bits
  import opened LtpSpec
  import opened Ltp
  import NBest

  // ----------------------------------------------- correlations and energies

  /** The correlation of a frame of len samples, which starts at position o of
      s, with the signal lag samples earlier. */
  function Correlation(s: seq<real>, o: nat, len: nat, lag: int): real
    requires 0 <= lag <= o <= |s|
  {
    Inner(s[o..], s[o - lag..], 0, len / 4 * 4)
  }

  function SquareOf(s: seq<real>, i: int): real {
    At(s, i) * At(s, i)
  }

  /** The energy of the frame lag samples earlier, brought on from the smallest
      lag one sample at a time and kept from falling below 0. */
  function Energy(s: seq<real>, o: nat, len: nat, start: int, lag: int): real
    requires 0 <= start <= lag <= o <= |s|
    decreases lag - start
  {
    if lag == start then Inner(s[o - start..], s[o - start..], 0, len / 4 * 4)
    else
      var e := Energy(s, o, len, start, lag - 1) + SquareOf(s, o - lag) - SquareOf(s, o - lag + len);
      if e < 0.0 then 0.0 else e
  }

  lemma {:induction false} InnerIsPower(s: seq<real>, q: nat, n: nat)
    requires q + n <= |s|
    ensures Inner(s[q..], s[q..], 0, n) == Power(s, q, n)
  {
    if n > 0 {
      InnerIsPower(s, q, n - 1);
      assert At(s[q..], n - 1) == At(s, q + n - 1);
      hide At;
    }
  }

  /** A window that moves on takes in one square and gives up another. */
  lemma {:induction false} PowerMoves(s: seq<real>, q: int, n: nat)
    ensures Power(s, q, n) == Power(s, q + 1, n) + SquareOf(s, q) - SquareOf(s, q + n)
  {
    hide At;
    if n > 0 {
      PowerMoves(s, q, n - 1);
      PowerStep(s, q, n - 1);
      PowerStep(s, q + 1, n - 1);
    }
  }

  lemma PowerStep(s: seq<real>, q: int, n: nat)
    ensures Power(s, q, n + 1) == Power(s, q, n) + SquareOf(s, q + n)
  {
    hide At;
  }

  lemma {:induction false} PowerNonnegative(s: seq<real>, q: int, n: nat)
    ensures Power(s, q, n) >= 0.0
  {
    if n > 0 {
      PowerNonnegative(s, q, n - 1);
      PowerStep(s, q, n - 1);
      SquareNonnegative(At(s, q + n - 1));
      hide At;
    }
  }

  lemma SquareNonnegative(x: real)
    ensures x * x >= 0.0
  {
  }

  /** For frames of whole blocks of four nothing is ever cut off: the energy is
      the sum of the squares of the earlier frame. */
  lemma {:induction false} EnergyIsPower(s: seq<real>, o: nat, len: nat, start: int, lag: int)
    requires 0 <= start <= lag <= o && o + len <= |s| && len % 4 == 0
    ensures Energy(s, o, len, start, lag) == Power(s, o - lag, len)
    decreases lag - start
  {
    PowerNonnegative(s, o - lag, len);
    if lag == start {
      InnerIsPower(s, o - start, len);
    } else {
      EnergyIsPower(s, o, len, start, lag - 1);
      PowerMoves(s, o - lag, len);
      hide Power, SquareOf;
    }
  }

  /** The correlation tells how the frame differs from the one lag samples
      earlier: with the two energies it makes the squared difference. */
  lemma {:induction false} CorrelationMeans(s: seq<real>, o: nat, n: nat, lag: int)
    requires 0 <= lag <= o && o + n <= |s|
    ensures Power(s, o, n) + Power(s, o - lag, n) - 2.0 * Inner(s[o..], s[o - lag..], 0, n) == Apart(s, o, n, lag)
  {
    if n > 0 {
      hide *;
      CorrelationMeans(s, o, n - 1, lag);
      SumsStep(s, o, n - 1, lag);
      PowerStep(s, o, n - 1);
      PowerStep(s, o - lag, n - 1);
    } else {
      NoSums(s, o, lag);
    }
  }

  lemma NoSums(s: seq<real>, o: nat, lag: int)
    requires 0 <= lag <= o <= |s|
    ensures Power(s, o, 0) == Power(s, o - lag, 0) == Inner(s[o..], s[o - lag..], 0, 0) == Apart(s, o, 0, lag) == 0.0
  {
  }

  lemma SumsStep(s: seq<real>, o: nat, n: nat, lag: int)
    requires 0 <= lag <= o && o + n < |s|
    ensures Apart(s, o, n + 1, lag) - Apart(s, o, n, lag)
         == SquareOf(s, o + n) + SquareOf(s, o - lag + n) - 2.0 * (Inner(s[o..], s[o - lag..], 0, n + 1) - Inner(s[o..], s[o - lag..], 0, n))
  {
    hide Apart, Inner;
    var a, b := At(s, o + n), At(s, o - lag + n);
    assert At(s[o..], n) == a && At(s[o - lag..], n) == b;
    hide At;
    TwoSquares(a, b);
    InnerNext(s[o..], s[o - lag..], n);
    ApartNext(s, o, n, lag);
  }

  lemma InnerNext(x: seq<real>, y: seq<real>, n: nat)
    ensures Inner(x, y, 0, n + 1) == Inner(x, y, 0, n) + At(x, n) * At(y, n)
  {
    hide At;
  }

  lemma ApartNext(s: seq<real>, o: nat, n: nat, lag: int)
    ensures var d := At(s, o + n) - At(s, o - lag + n); Apart(s, o, n + 1, lag) == Apart(s, o, n, lag) + d * d
  {
    hide At;
  }

  lemma TwoSquares(a: real, b: real)
    ensures (a - b) * (a - b) == a * a + b * b - 2.0 * (a * b)
  {
  }

  /** The squared difference of a frame and the one lag samples earlier. */
  function Apart(s: seq<real>, o: nat, n: nat, lag: int): real {
    if n == 0 then 0.0
    else
      var d := At(s, o + n - 1) - At(s, o - lag + n - 1);
      Apart(s, o, n - 1, lag) + d * d
  }

  lemma EnergyNonnegative(s: seq<real>, o: nat, len: nat, start: int, lag: int)
    requires 0 <= start <= lag <= o && o + len <= |s|
    ensures Energy(s, o, len, start, lag) >= 0.0
  {
    if lag == start {
      InnerIsPower(s, o - start, len / 4 * 4);
      PowerNonnegative(s, o - start, len / 4 * 4);
    }
  }

  // ------------------------------------------------------------ the selection

  /** How well a lag does, negated so that less is better: squared correlation
      over one more than the energy. */
  function Loss(c: real, e: real): real {
    if e >= 0.0 then -(c * c) / (1.0 + e) else 0.0
  }

  function Losses(corr: seq<real>, ener: seq<real>): int -> real {
    i => Loss(At(corr, i), At(ener, i))
  }

  /** The code multiplies crosswise instead of dividing. */
  lemma Crosswise(c: real, e: real, c': real, e': real)
    requires e >= 0.0 && e' >= 0.0
    ensures (c * c) * (e' + 1.0) > (c' * c') * (1.0 + e) <==> Loss(c, e) < Loss(c', e')
  {
    Divided(c * c, 1.0 + e, c' * c', 1.0 + e');
    Negative(c * c, 1.0 + e);
    Negative(c' * c', 1.0 + e');
  }

  lemma Negative(t: real, u: real)
    requires u > 0.0
    ensures -t / u == -(t / u)
  {
    var q := t / u;
    assert q * u == t;
    var p := -t / u;
    assert p * u == -t;
    SumIsZero(p, q, u);
  }

  lemma SumIsZero(p: real, q: real, u: real)
    requires u > 0.0 && p * u + q * u == 0.0
    ensures p == -q
  {
    assert (p + q) * u == 0.0;
  }

  lemma Divided(t: real, u: real, t': real, u': real)
    requires u > 0.0 && u' > 0.0
    ensures t * u' > t' * u <==> t / u > t' / u'
  {
    var q, q' := t / u, t' / u';
    assert q * u == t && q' * u' == t';
    CrossSign(q, q', u, u');
  }

  lemma CrossSign(q: real, q': real, u: real, u': real)
    requires u > 0.0 && u' > 0.0
    ensures (q * u) * u' > (q' * u') * u <==> q > q'
  {
    var w := u * u';
    PositiveProduct(u, u');
    assert (q * u) * u' - (q' * u') * u == (q - q') * w;
    if q > q' {
      PositiveProduct(q - q', w);
    } else if q < q' {
      PositiveProduct(q' - q, w);
      assert (q' - q) * w == -((q - q') * w);
    }
  }

  /** The slots hold the candidates idx, best first, and behind them what they
      were started with. */
  ghost predicate Slots(pitch: seq<int>, score: seq<real>, best: seq<real>, idx: seq<int>, corr: seq<real>, ener: seq<real>, start: int, N: nat) {
    && |pitch| == |score| == |best| == N && |idx| <= N
    && (forall m :: 0 <= m < |idx| ==>
          pitch[m] == start + idx[m] && score[m] == SquareOf(corr, idx[m]) && best[m] == At(ener, idx[m]) + 1.0)
    && (forall m :: |idx| <= m < N ==> pitch[m] == start && score[m] == -1.0 && best[m] == 0.0)
  }

  ghost predicate Nonnegative(ener: seq<real>) {
    forall i :: 0 <= i < |ener| ==> ener[i] >= 0.0
  }

  /** Candidate i beats slot m exactly if that is still free or holds a worse
      one. */
  predicate Beats(tmp: real, e: real, score: real, best: real) {
    tmp * best > score * (1.0 + e)
  }

  lemma BeatsSlot(pitch: seq<int>, score: seq<real>, best: seq<real>, idx: seq<int>, corr: seq<real>, ener: seq<real>, start: int, N: nat, i: nat, m: nat)
    requires Slots(pitch, score, best, idx, corr, ener, start, N) && Nonnegative(ener) && i < |ener| == |corr| && m < N
    requires m < |idx| ==> 0 <= idx[m] < |ener|
    ensures Beats(SquareOf(corr, i), ener[i], score[m], best[m])
       <==> m >= |idx| || Losses(corr, ener)(i) < Losses(corr, ener)(idx[m])
  {
    if m < |idx| {
      Crosswise(corr[i], ener[i], corr[idx[m]], ener[idx[m]]);
    } else {
      FreeSlot(SquareOf(corr, i), ener[i]);
    }
  }

  lemma FreeSlot(t: real, e: real)
    requires e >= 0.0
    ensures t * 0.0 > -1.0 * (1.0 + e)
  {
  }

  lemma InsertSlots(pitch: seq<int>, score: seq<real>, best: seq<real>, idx: seq<int>, corr: seq<real>, ener: seq<real>, start: int, N: nat, i: nat, k: nat)
    requires Slots(pitch, score, best, idx, corr, ener, start, N) && i < |ener| == |corr| && k < N && k <= |idx|
    ensures |pitch| == |score| == |best| == N
    ensures Slots(NBest.Shifted(pitch, k, start + i), NBest.Shifted(score, k, SquareOf(corr, i)), NBest.Shifted(best, k, ener[i] + 1.0),
      Inserted(idx, k, i, N), corr, ener, start, N)
  {
    hide SquareOf;
    InsertedAt(idx, k, i, N);
    ShiftedAt(pitch, k, start + i);
    ShiftedAt(score, k, SquareOf(corr, i));
    ShiftedAt(best, k, ener[i] + 1.0);
    hide Inserted, NBest.Shifted;
  }

  lemma ShiftedAt<T>(s: seq<T>, k: nat, x: T)
    requires k < |s|
    ensures forall m {:trigger NBest.Shifted(s, k, x)[m]} :: 0 <= m < |s| ==>
      NBest.Shifted(s, k, x)[m] == if m < k then s[m] else if m == k then x else s[m - 1]
  {
  }

  /** The first slot a candidate beats is its place. */
  lemma FirstBeaten(d: int -> real, i: nat, N: nat, idx: seq<int>, k: nat)
    requires N > 0 && BestOf(d, i, N, idx) && k < N && k <= |idx|
    requires k > 0 ==> d(idx[k - 1]) <= d(i)
    requires k < |idx| ==> d(i) < d(idx[k])
    ensures PlaceFor(d, d(i), idx, N, k)
  {
    forall m | k < m < |idx|
      ensures d(i) < d(idx[m])
    {
      assert Before(d, idx[k], idx[m]);
    }
  }

  /** The selection loop of open_loop_nbest_pitch. */
  method Select(corr: seq<real>, ener: seq<real>, start: int, pitch: array<int>, N: nat) returns (ghost idx: seq<int>)
    requires 1 <= N == pitch.Length <= |corr| == |ener| && Nonnegative(ener)
    modifies pitch
    ensures BestOf(Losses(corr, ener), |corr|, N, idx) && |idx| == N
    ensures forall m :: 0 <= m < N ==> pitch[m] == start + idx[m]
  {
    hide Slots, BestOf, Losses, Nonnegative;
    var best_score, best_ener := new real[N](_ => -1.0), new real[N](_ => 0.0);
    for m := 0 to N
      invariant forall j :: 0 <= j < m ==> pitch[j] == start
      invariant forall j :: 0 <= j < N ==> best_score[j] == -1.0 && best_ener[j] == 0.0
    {
      pitch[m] := start;
    }
    idx := [];
    FreeSlots(pitch[..], best_score[..], best_ener[..], corr, ener, start, N);
    for i := 0 to |corr|
      invariant Slots(pitch[..], best_score[..], best_ener[..], idx, corr, ener, start, N) && BestOf(Losses(corr, ener), i, N, idx)
    {
      idx := Consider(corr, ener, start, pitch, best_score, best_ener, N, i, idx);
    }
    AllPlaced(pitch[..], best_score[..], best_ener[..], idx, corr, ener, start, N);
  }

  lemma FreeSlots(pitch: seq<int>, score: seq<real>, best: seq<real>, corr: seq<real>, ener: seq<real>, start: int, N: nat)
    requires |pitch| == |score| == |best| == N
    requires forall m :: 0 <= m < N ==> pitch[m] == start && score[m] == -1.0 && best[m] == 0.0
    ensures Slots(pitch, score, best, [], corr, ener, start, N) && BestOf(Losses(corr, ener), 0, N, [])
  {
  }

  lemma AllPlaced(pitch: seq<int>, score: seq<real>, best: seq<real>, idx: seq<int>, corr: seq<real>, ener: seq<real>, start: int, N: nat)
    requires N <= |corr| && Slots(pitch, score, best, idx, corr, ener, start, N) && BestOf(Losses(corr, ener), |corr|, N, idx)
    ensures |idx| == N == |pitch| && forall m :: 0 <= m < N ==> pitch[m] == start + idx[m]
  {
  }

  /** One candidate: it goes into the last slot if it beats that, and from there
      in front of the first one it beats. */
  method Consider(corr: seq<real>, ener: seq<real>, start: int, pitch: array<int>, best_score: array<real>, best_ener: array<real>, N: nat,
                  i: nat, ghost idx: seq<int>) returns (ghost idx': seq<int>)
    requires 1 <= N == pitch.Length == best_score.Length == best_ener.Length && best_score != best_ener
    requires i < |corr| == |ener| && Nonnegative(ener)
    requires Slots(pitch[..], best_score[..], best_ener[..], idx, corr, ener, start, N) && BestOf(Losses(corr, ener), i, N, idx)
    modifies pitch, best_score, best_ener
    ensures Slots(pitch[..], best_score[..], best_ener[..], idx', corr, ener, start, N) && BestOf(Losses(corr, ener), i + 1, N, idx')
  {
    hide *;
    ghost var d, p, s, b := Losses(corr, ener), pitch[..], best_score[..], best_ener[..];
    var tmp := corr[i] * corr[i];
    SquareIs(corr, i);
    SlotsFit(d, p, s, b, idx, corr, ener, start, N, i);
    BeatsSlot(p, s, b, idx, corr, ener, start, N, i, N - 1);
    if Beats(tmp, ener[i], best_score[N - 1], best_ener[N - 1]) {
      var j := 0;
      while j < N - 1 && !Beats(tmp, ener[i], best_score[j], best_ener[j])
        invariant pitch[..] == p && best_score[..] == s && best_ener[..] == b
        invariant 0 <= j <= N - 1 && j <= |idx| && (j > 0 ==> d(idx[j - 1]) <= d(i))
      {
        BeatsSlot(p, s, b, idx, corr, ener, start, N, i, j);
        j := j + 1;
      }
      BeatsSlot(p, s, b, idx, corr, ener, start, N, i, j);
      FirstBeaten(d, i, N, idx, j);
      InsertKeepsBest(d, i, N, idx, j);
      InsertSlots(p, s, b, idx, corr, ener, start, N, i, j);
      idx' := Inserted(idx, j, i, N);
      NBest.ShiftUp(best_score, j, tmp);
      NBest.ShiftUp(best_ener, j, ener[i] + 1.0);
      NBest.ShiftUp(pitch, j, start + i);
    } else {
      idx' := idx;
      SkipKeepsBest(d, i, N, idx);
    }
  }

  lemma SquareIs(corr: seq<real>, i: nat)
    requires i < |corr|
    ensures SquareOf(corr, i) == corr[i] * corr[i]
  {
  }

  lemma SlotsFit(d: int -> real, pitch: seq<int>, score: seq<real>, best: seq<real>, idx: seq<int>, corr: seq<real>, ener: seq<real>, start: int, N: nat, i: nat)
    requires Slots(pitch, score, best, idx, corr, ener, start, N) && BestOf(d, i, N, idx) && i < |corr| == |ener|
    ensures |idx| <= N && forall m :: 0 <= m < |idx| ==> 0 <= idx[m] < |ener|
  {
  }

  /** No candidate is listed twice. */
  lemma NoneTwice(d: int -> real, n: nat, N: nat, idx: seq<int>, start: int, nbest: seq<int>)
    requires BestOf(d, n, N, idx) && |nbest| == |idx| && forall m :: 0 <= m < |idx| ==> nbest[m] == start + idx[m]
    ensures Distinct(nbest) && forall m :: 0 <= m < |nbest| ==> start <= nbest[m] < start + n
  {
    forall a, b | 0 <= a < b < |nbest|
      ensures nbest[a] != nbest[b]
    {
      assert Before(d, idx[a], idx[b]);
    }
  }

  // ---------------------------------------------------- open_loop_nbest_pitch

  function LagCorrelations(s: seq<real>, o: nat, len: nat, start: int, n: nat): (c: seq<real>)
    requires 0 <= start && start + n <= o + 1 && o <= |s|
    ensures |c| == n
  {
    seq(n, i requires 0 <= i < n => Correlation(s, o, len, start + i))
  }

  function LagEnergies(s: seq<real>, o: nat, len: nat, start: int, n: nat): (e: seq<real>)
    requires 0 <= start && start + n <= o + 1 && o <= |s|
    ensures |e| == n
  {
    seq(n, i requires 0 <= i < n => Energy(s, o, len, start, start + i))
  }

  /** pitch_xcorr: the correlations, filled in from the largest lag on. */
  method PitchXcorr(s: seq<real>, o: nat, len: nat, start: int, end: int) returns (corr: seq<real>)
    requires 0 <= start <= end <= o && o + len <= |s|
    ensures corr == LagCorrelations(s, o, len, start, end - start + 1)
  {
    hide Correlation, Inner;
    var nb_pitch := end - start + 1;
    var c := new real[nb_pitch];
    ghost var want := LagCorrelations(s, o, len, start, nb_pitch);
    for i := 0 to nb_pitch
      invariant forall k :: nb_pitch - i <= k < nb_pitch ==> c[k] == want[k]
    {
      var part := InnerProd(s[o..], s[o - end + i..], len);
      CorrelationIs(s, o, len, end - i);
      c[nb_pitch - 1 - i] := part;
    }
    corr := c[..];
  }

  lemma CorrelationIs(s: seq<real>, o: nat, len: nat, lag: int)
    requires 0 <= lag <= o <= |s|
    ensures Correlation(s, o, len, lag) == Inner(s[o..], s[o - lag..], 0, len / 4 * 4)
  {
    hide Inner;
  }

  /** The energies, each from the one before. */
  method PitchEnergies(s: seq<real>, o: nat, len: nat, start: int, end: int) returns (energy: seq<real>)
    requires 0 <= start <= end <= o && o + len <= |s|
    ensures energy == LagEnergies(s, o, len, start, end - start + 1)
  {
    hide Inner;
    var n := end - start + 1;
    var e := new real[n];
    ghost var want := LagEnergies(s, o, len, start, n);
    var first := InnerProd(s[o - start..], s[o - start..], len);
    e[0] := first;
    assert want[0] == Energy(s, o, len, start, start);
    for i := start to end
      invariant forall k :: 0 <= k <= i - start ==> e[k] == want[k]
    {
      var next := e[i - start] + s[o - i - 1] * s[o - i - 1] - s[o - i + len - 1] * s[o - i + len - 1];
      EnergyNext(s, o, len, start, i);
      if next < 0.0 {
        next := 0.0;
      }
      e[i - start + 1] := next;
    }
    energy := e[..];
  }

  lemma EnergyNext(s: seq<real>, o: nat, len: nat, start: int, i: int)
    requires 0 <= start <= i < o && o + len <= |s|
    ensures var e := Energy(s, o, len, start, i) + s[o - i - 1] * s[o - i - 1] - s[o - i + len - 1] * s[o - i + len - 1];
      Energy(s, o, len, start, i + 1) == if e < 0.0 then 0.0 else e
  {
    hide Inner;
  }

  lemma EnergiesNonnegative(s: seq<real>, o: nat, len: nat, start: int, n: nat)
    requires 0 <= start && start + n <= o + 1 && o + len <= |s|
    ensures Nonnegative(LagEnergies(s, o, len, start, n))
  {
    forall i | 0 <= i < n
      ensures LagEnergies(s, o, len, start, n)[i] >= 0.0
    {
      EnergyNonnegative(s, o, len, start, start + i);
      hide Energy;
    }
  }

  /** open_loop_nbest_pitch: the N lags of largest squared correlation over one
      more than the energy, best first, the shorter first among equals; all
      different. */
  method OpenLoopNbestPitch(s: seq<real>, o: nat, start: int, end: int, len: nat, pitch: array<int>, N: nat) returns (ghost idx: seq<int>)
    requires 0 <= start && 1 <= N == pitch.Length <= end - start + 1 && end <= o && o + len <= |s|
    modifies pitch
    ensures var n := end - start + 1;
      BestOf(Losses(LagCorrelations(s, o, len, start, n), LagEnergies(s, o, len, start, n)), n, N, idx) && |idx| == N
    ensures (forall m :: 0 <= m < N ==> pitch[m] == start + idx[m] && start <= pitch[m] <= end) && Distinct(pitch[..])
  {
    hide *;
    var n := end - start + 1;
    var energy := PitchEnergies(s, o, len, start, end);
    EnergiesNonnegative(s, o, len, start, n);
    var corr := PitchXcorr(s, o, len, start, end);
    idx := Select(corr, energy, start, pitch, N);
    NoneTwice(Losses(corr, energy), n, N, idx, start, pitch[..]);
  }

  /** nbest are the best lags, the best first. */
  ghost predicate Listed(s: seq<real>, o: nat, len: nat, start: int, end: int, nbest: seq<int>)
    requires 0 <= start <= end <= o <= |s|
  {
    var n := end - start + 1;
    exists idx :: BestOf(Losses(LagCorrelations(s, o, len, start, n), LagEnergies(s, o, len, start, n)), n, |nbest|, idx)
      && |idx| == |nbest| && forall m :: 0 <= m < |nbest| ==> nbest[m] == start + idx[m]
  }

  /** How many candidates are tried. */
  function Count(complexity: int, lags: int): int {
    var N := if complexity > 10 then 10 else if complexity < 1 then 1 else complexity;
    if N > lags then lags else N
  }

  /** pitch_search_3tap, candidates and all: the best lags are tried in order,
      and the pitch returned is the one packed exactly when the candidate tried
      last has strictly the least error. */
  method PitchSearch(s: seq<real>, o: nat, target: array<real>, ak: array<real>, awk1: array<real>, awk2: array<real>, exc: array<real>,
                     cdbk: seq<int>, gain_bits: nat, pitch_bits: nat, start: int, end: int, p: nat,
                     bits: SpeexBits, exc2: seq<real>, r: seq<real>, complexity: int, cdbk_offset: nat, plc_tuning: int, cumul_gain: real)
    returns (pitch: int, cumul: real, ghost nbest: seq<int>, ghost tried: seq<Choice>, ghost at: nat)
    requires 1 <= target.Length == |r| == exc.Length && target != exc && gain_bits <= 30 && pitch_bits <= 32
    requires 1 <= p && ak.Length == awk1.Length == awk2.Length == p
    requires 2 <= start && end < |exc2| && 4 * Times(Pow2(gain_bits), cdbk_offset + 1) <= |cdbk|
    requires end <= o && o + target.Length <= |s|
    requires bits.Writing() && bits.owner && bits.chars as object != target && bits.chars as object != exc
    modifies target, exc, bits, bits.chars
    ensures bits.Writing() && (bits.chars == old(bits.chars) || fresh(bits.chars))
    ensures end < start ==> pitch == start
    ensures start <= end ==>
      var t, f, table := old(target[..]), old(Synth(ak[..], awk1[..], awk2[..])), Table4(cdbk, Pow2(gain_bits), cdbk_offset);
      && Listed(s, o, target.Length, start, end, nbest) && |tried| == |nbest| == Count(complexity, end - start + 1)
      && Tried(f, t, r, exc2, table, Pow2(gain_bits), PlcTuning(plc_tuning), MaxGain(cumul_gain), nbest, tried)
      && FirstBest(f, t, r, exc2, table, tried, at) && start <= tried[at].pitch <= end
      && (pitch == tried[at].pitch <==> LastBest(f, t, r, exc2, table, tried))
      && exc[..] == PitchExc(exc2, tried[at].pitch, exc.Length, GainsAt(table, tried[at].index))
      && (forall j :: 0 <= j < target.Length ==> target[j] == SearchLeft(f, t, r, exc2, tried[at].pitch, GainsAt(table, tried[at].index), j))
      && bits.Contents() == old(bits.Contents()) + BitsOf(tried[at].pitch - start, pitch_bits) + BitsOf(tried[at].index, gain_bits)
  {
    hide Listed, GainsAt, Table4, LastBest, FirstBest, Tried, BitsOf, BitsIn, PitchExc, SearchLeft, IsResponse, Distinct, Pow2, Times, Bit;
    var N := if complexity > 10 then 10 else complexity;
    if N < 1 {
      N := 1;
    }
    var lags := [];
    if start <= end {
      if N > end - start + 1 {
        N := end - start + 1;
      }
      lags := Candidates(s, o, start, end, target.Length, N);
    }
    ghost var best;
    nbest := lags;
    pitch, cumul, best, tried, at := PitchSearch3tap(target, ak, awk1, awk2, exc, cdbk, gain_bits, pitch_bits, start, end, lags, p,
      bits, exc2, r, cdbk_offset, plc_tuning, cumul_gain);
  }

  lemma OnlyLag(d: int -> real)
    ensures BestOf(d, 1, 1, [0])
  {
  }

  /** A single lag is not searched for. */
  method Candidates(s: seq<real>, o: nat, start: int, end: int, len: nat, N: nat) returns (nbest: seq<int>)
    requires 0 <= start <= end <= o && o + len <= |s| && 1 <= N <= end - start + 1
    ensures |nbest| == N && Listed(s, o, len, start, end, nbest)
    ensures Distinct(nbest) && forall k :: 0 <= k < N ==> start <= nbest[k] <= end
  {
    hide BestOf, Losses, LagCorrelations, LagEnergies;
    if end != start {
      var pitch := new int[N];
      ghost var idx := OpenLoopNbestPitch(s, o, start, end, len, pitch, N);
      nbest := pitch[..];
    } else {
      nbest := [start];
      OnlyLag(Losses(LagCorrelations(s, o, len, start, 1), LagEnergies(s, o, len, start, 1)));
    }
  }
}
