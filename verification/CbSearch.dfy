/** The split-codebook searches of cb_search.c. */
module CbSearch {
  import opened IntArith
  import opened RealSums
  import opened FilterSpec
  import opened Vq
  import opened CbSpec
  import opened NBest

  /** What the codec's codebook tables and callers provide. */
  ghost predicate Proper(s: Setup, M: nat) {
    && s.L >= 1 && |s.cb| == s.K * s.L
    && |s.target| == |s.r| == M * s.L
  }

  // ---------------------------------------------- the table of responses

  function Table(s: Setup): (t: seq<real>)
    requires s.L >= 1
    ensures |t| == s.K * s.L
  {
    seq(s.K * s.L, k => Response(s, k / s.L, k % s.L))
  }

  lemma TableIsWeighted(s: Setup)
    requires s.L >= 1
    ensures Weighted(s, Table(s))
  {
    forall row, m | 0 <= row < s.K && 0 <= m < s.L
      ensures Table(s)[Cell(s, row, m)] == Response(s, row, m)
    {
      CellDivides(s, row, m);
    }
  }

  lemma CellDivides(s: Setup, row: int, m: int)
    requires 0 <= m < s.L
    ensures (row * s.L + m) / s.L == row && (row * s.L + m) % s.L == m
  {
    ModUnique(row * s.L + m, s.L, row, m);
  }

  method ComputeWeightedCodebook(s: Setup) returns (resp: array<real>, E: array<real>)
    requires s.L >= 1 && |s.cb| == s.K * s.L && |s.r| >= s.L
    ensures fresh(resp) && fresh(E) && E.Length == s.K
    ensures resp[..] == Table(s)
    ensures forall i :: 0 <= i < s.K ==> E[i] == Energy(Table(s), s.L, i)
  {
    resp := new real[s.K * s.L];
    E := new real[s.K];
    for i := 0 to s.K
      invariant forall k :: 0 <= k < i ==> E[k] == Energy(Table(s), s.L, k)
      invariant 0 <= i * s.L <= resp.Length && resp[..i * s.L] == Table(s)[..i * s.L]
    {
      RowBound(i, s.K, s.L);
      var energy := WeightedRow(s, i, resp);
      E[i] := energy;
    }
    assert resp[..] == resp[..s.K * s.L];
  }

  /** One row of responses, and its energy. */
  method WeightedRow(s: Setup, i: nat, resp: array<real>) returns (energy: real)
    requires s.L >= 1 && |s.cb| == s.K * s.L && |s.r| >= s.L && i < s.K
    requires resp.Length == s.K * s.L && 0 <= i * s.L <= resp.Length && resp[..i * s.L] == Table(s)[..i * s.L]
    modifies resp
    ensures 0 <= (i + 1) * s.L <= resp.Length && resp[..(i + 1) * s.L] == Table(s)[..(i + 1) * s.L]
    ensures energy == Energy(Table(s), s.L, i)
  {
    hide Table, Response, Power;
    RowBound(i, s.K, s.L);
    var o := i * s.L;
    energy := 0.0;
    PowerStep(Table(s), o, 0);
    for j := 0 to s.L
      invariant resp[..o + j] == Table(s)[..o + j]
      invariant energy == Power(Table(s), o, j)
    {
      var resj := TapSum(s, i, j);
      var res16 := 0.03125 * resj;
      TableAt(s, i, j);
      PowerStep(Table(s), o, j + 1);
      energy := energy + res16 * res16;
      resp[o + j] := res16;
      assert resp[..o + j + 1] == Table(s)[..o + j + 1];
    }
  }

  lemma TableAt(s: Setup, i: nat, j: nat)
    requires s.L >= 1 && i < s.K && j < s.L
    ensures 0 <= i * s.L + j < s.K * s.L && Table(s)[i * s.L + j] == 0.03125 * Taps(s, i, j, j + 1)
    ensures At(Table(s), i * s.L + j) == Table(s)[i * s.L + j]
  {
    EntryInBook(i, s.K, s.L, j, s.K * s.L);
    CellDivides(s, i, j);
  }

  lemma PowerStep(y: seq<real>, o: int, n: nat)
    ensures Power(y, o, n) == if n == 0 then 0.0 else Power(y, o, n - 1) + At(y, o + (n - 1)) * At(y, o + (n - 1))
  {
    assert n > 0 ==> o + n - 1 == o + (n - 1);
  }

  method TapSum(s: Setup, i: nat, j: nat) returns (resj: real)
    requires |s.cb| == s.K * s.L && |s.r| >= s.L && i < s.K && j < s.L
    ensures resj == Taps(s, i, j, j + 1)
  {
    resj := 0.0;
    for k := 0 to j + 1
      invariant resj == Taps(s, i, j, k)
    {
      EntryInBook(i, s.K, s.L, k, |s.cb|);
      resj := resj + s.cb[i * s.L + k] as real * s.r[j - k];
    }
  }

  // ------------------------------------------------- one path, all codewords

  /** N paths and the distances kept for them. */
  datatype Beam = Beam(paths: seq<seq<int>>, dists: seq<real>)

  /** Half the squared error the next subvector would have with codeword v. */
  function HalfError(s: Setup, path: seq<int>, v: int): real
    requires s.L >= 1
  {
    0.5 * SquaredDistance(Ahead(s, path), Table(s), s.L, RowOf(s, v), SignOf(s, v))
  }

  /** What codeword v after path j would cost. */
  function Candidates(s: Setup, b: Beam): Costs
    requires s.L >= 1 && |b.dists| == |b.paths|
  {
    (j, v) => if 0 <= j < |b.paths| && Label(s, v) then b.dists[j] + HalfError(s, b.paths[j], v) else VERY_LARGE
  }

  /** The index under which a row is offered: with signs, the nearer one. */
  function LabelOf(s: Setup, path: seq<int>, row: int): int
    requires s.L >= 1
  {
    if s.sign then Signed(Ahead(s, path), Table(s), s.L, s.K, row) else row
  }

  function RankOf(s: Setup, path: seq<int>, E: seq<real>): int -> real
    requires s.L >= 1
  {
    if s.sign then SignRanks(Ahead(s, path), Table(s), s.L, E) else Ranks(Ahead(s, path), Table(s), s.L, E)
  }

  ghost predicate Energies(s: Setup, E: seq<real>)
    requires s.L >= 1
  {
    |E| == s.K && forall i :: 0 <= i < s.K ==> E[i] == Energy(Table(s), s.L, i)
  }

  /** Ranking codewords ranks the errors they leave. */
  lemma RankIsError(s: Setup, path: seq<int>, E: seq<real>, row: int)
    requires s.L >= 1 && Energies(s, E) && 0 <= row < s.K
    ensures HalfError(s, path, LabelOf(s, path, row)) == RankOf(s, path, E)(row) + 0.5 * Norm(Ahead(s, path), s.L)
    ensures Label(s, LabelOf(s, path, row)) && RowOf(s, LabelOf(s, path, row)) == row
  {
    hide Ahead, Table, SquaredDistance, Norm, Dot, Energy, Rank, SignRank;
    if s.sign {
      SignRankIsDistance(Ahead(s, path), Table(s), s.L, E, row);
    } else {
      RankIsDistance(Ahead(s, path), Table(s), s.L, E, row);
    }
  }

  /** With signs, the other sign is no nearer. */
  lemma OtherSign(s: Setup, path: seq<int>, v: int)
    requires s.L >= 1 && s.sign && Label(s, v)
    ensures HalfError(s, path, LabelOf(s, path, RowOf(s, v))) <= HalfError(s, path, v)
  {
    var E := seq(s.K, i => Energy(Table(s), s.L, i));
    hide Ahead, Table, SquaredDistance, Energy;
    SignRankIsDistance(Ahead(s, path), Table(s), s.L, E, RowOf(s, v));
    hide Dot;
  }

  ghost predicate Ready(s: Setup, N: nat, b: Beam, j: nat, E: seq<real>) {
    s.L >= 1 && 1 <= N <= s.K && |b.paths| == N && |b.dists| == N && j < N && Energies(s, E)
  }

  /** The first k rows of idx have been offered for slot j. */
  ghost predicate Offered(s: Setup, N: nat, b: Beam, j: nat, idx: seq<int>, k: nat, l: List)
    requires s.L >= 1 && |b.dists| == |b.paths| && j < |b.paths| && k <= |idx|
  {
    var c := Candidates(s, b);
    && Kept(c, N, l)
    && (forall a :: 0 <= a < k ==> Considered(c, N, l, j, LabelOf(s, b.paths[j], idx[a])))
    && (forall j', v' :: Listed(N, l, j', v') ==> j' < j || (j' == j && exists a :: 0 <= a < k && v' == LabelOf(s, b.paths[j], idx[a])))
  }

  /** Everything considered for earlier slots still is. */
  ghost predicate StillConsidered(c: Costs, N: nat, l: List, l': List)
    requires Sized(N, l) && Sized(N, l')
  {
    forall j, v :: Considered(c, N, l, j, v) ==> Considered(c, N, l', j, v)
  }

  ghost predicate Earlier(N: nat, l: List, j: nat)
    requires Sized(N, l)
  {
    forall j', v' :: Listed(N, l, j', v') ==> j' < j
  }

  /** All rows of slot j have been considered. */
  ghost predicate AllConsidered(s: Setup, N: nat, b: Beam, j: nat, l: List)
    requires s.L >= 1 && |b.dists| == |b.paths| && j < |b.paths| && Sized(N, l)
  {
    forall row :: 0 <= row < s.K ==> Considered(Candidates(s, b), N, l, j, LabelOf(s, b.paths[j], row))
  }

  /** Rows listed at two places have two labels. */
  lemma LabelsDiffer(s: Setup, path: seq<int>, a: int, b: int)
    requires s.L >= 1 && 0 <= a < s.K && 0 <= b < s.K && a != b
    ensures LabelOf(s, path, a) != LabelOf(s, path, b)
  {
    hide Ahead, Table, Dot;
  }

  /** Offering the next row of idx. */
  lemma OfferRow(s: Setup, N: nat, b: Beam, j: nat, E: seq<real>, idx: seq<int>, k: nat, l: List, m: nat)
    requires Ready(s, N, b, j, E) && BestOf(RankOf(s, b.paths[j], E), s.K, N, idx) && k < N
    requires |idx| == N && Offered(s, N, b, j, idx, k, l)
    requires var v := LabelOf(s, b.paths[j], idx[k]); Place(N, l, m, Candidates(s, b)(j, v))
    ensures var v := LabelOf(s, b.paths[j], idx[k]); var c := Candidates(s, b);
      var l' := Insert(N, l, m, c(j, v), j, v);
      && Offered(s, N, b, j, idx, k + 1, l') && StillConsidered(c, N, l, l')
  {
    var c := Candidates(s, b);
    var v := LabelOf(s, b.paths[j], idx[k]);
    var l' := Insert(N, l, m, c(j, v), j, v);
    NewLabel(s, N, b, j, E, idx, k, l);
    hide Candidates, LabelOf, Insert, Place, RankOf, Energies, Listed, BestOf, Offered, Considered;
    KeptSized(c, N, l);
    OfferedKept(s, N, b, j, idx, k, l);
    InsertKeeps(c, N, l, m, j, v);
    KeptSized(c, N, l');
    hide Kept;
    forall j', v' | Considered(c, N, l, j', v')
      ensures Considered(c, N, l', j', v')
    {
      InsertForgetsNothing(c, N, l, m, j, v, j', v');
    }
    OfferedMore(s, N, b, j, idx, k, l, m);
  }

  lemma OfferedMore(s: Setup, N: nat, b: Beam, j: nat, idx: seq<int>, k: nat, l: List, m: nat)
    requires s.L >= 1 && |b.dists| == |b.paths| && j < |b.paths| && k < |idx| && Sized(N, l)
    requires Offered(s, N, b, j, idx, k, l)
    requires var v := LabelOf(s, b.paths[j], idx[k]); var c := Candidates(s, b);
      && Place(N, l, m, c(j, v)) && Kept(c, N, Insert(N, l, m, c(j, v), j, v))
      && Listed(N, Insert(N, l, m, c(j, v), j, v), j, v)
      && StillConsidered(c, N, l, Insert(N, l, m, c(j, v), j, v))
    ensures var v := LabelOf(s, b.paths[j], idx[k]); var c := Candidates(s, b);
      Offered(s, N, b, j, idx, k + 1, Insert(N, l, m, c(j, v), j, v))
  {
    var c := Candidates(s, b);
    var v := LabelOf(s, b.paths[j], idx[k]);
    var l' := Insert(N, l, m, c(j, v), j, v);
    hide Candidates, LabelOf, Insert, Kept, Place, Listed;
    forall j', v' | Listed(N, l', j', v')
      ensures j' < j || (j' == j && exists a :: 0 <= a < k + 1 && v' == LabelOf(s, b.paths[j], idx[a]))
    {
      ListedOnlyNew(c, N, l, m, j, v, j', v');
    }
  }

  /** The next row of idx is not on the list yet. */
  lemma NewLabel(s: Setup, N: nat, b: Beam, j: nat, E: seq<real>, idx: seq<int>, k: nat, l: List)
    requires Ready(s, N, b, j, E) && BestOf(RankOf(s, b.paths[j], E), s.K, N, idx) && k < N
    requires |idx| == N && Sized(N, l) && Offered(s, N, b, j, idx, k, l)
    ensures !Listed(N, l, j, LabelOf(s, b.paths[j], idx[k]))
  {
    hide Candidates, LabelOf, Kept, Energies, Listed, RankOf, Considered;
    forall a | 0 <= a < k
      ensures LabelOf(s, b.paths[j], idx[a]) != LabelOf(s, b.paths[j], idx[k])
    {
      assert Before(RankOf(s, b.paths[j], E), idx[a], idx[k]);
      LabelsDiffer(s, b.paths[j], idx[a], idx[k]);
    }
  }

  /** Rejecting a row leaves everything as it is. */
  lemma RejectRow(s: Setup, N: nat, b: Beam, j: nat, E: seq<real>, idx: seq<int>, k: nat, l: List)
    requires Ready(s, N, b, j, E) && |idx| == N && k < N
    requires Offered(s, N, b, j, idx, k, l)
    requires Candidates(s, b)(j, LabelOf(s, b.paths[j], idx[k])) >= l.dist[N - 1]
    ensures Offered(s, N, b, j, idx, k + 1, l)
  {
    hide Candidates, LabelOf, Kept, Energies, Listed;
    KeptSized(Candidates(s, b), N, l);
  }

  lemma KeptSized(c: Costs, N: nat, l: List)
    requires Kept(c, N, l)
    ensures Sized(N, l)
  {
  }

  /** The first k entries of the list are no dearer than the k-th row offered. */
  ghost predicate Counted(s: Setup, N: nat, b: Beam, j: nat, idx: seq<int>, k: nat, l: List)
    requires s.L >= 1 && |b.dists| == |b.paths| && j < |b.paths| && k <= |idx| && Sized(N, l) && k <= N
  {
    k > 0 ==> l.dist[k - 1] <= Candidates(s, b)(j, LabelOf(s, b.paths[j], idx[k - 1]))
  }

  lemma CountRow(s: Setup, N: nat, b: Beam, j: nat, E: seq<real>, idx: seq<int>, k: nat, l: List, l': List, m: nat)
    requires Ready(s, N, b, j, E) && BestOf(RankOf(s, b.paths[j], E), s.K, N, idx) && k < N
    requires |idx| == N && Kept(Candidates(s, b), N, l) && Counted(s, N, b, j, idx, k, l)
    requires var v := LabelOf(s, b.paths[j], idx[k]); var d := Candidates(s, b)(j, v);
      if d < l.dist[N - 1] then Place(N, l, m, d) && l' == Insert(N, l, m, d, j, v) else l' == l
    ensures Sized(N, l') && Counted(s, N, b, j, idx, k + 1, l')
  {
    if k > 0 {
      PreviousCheaper(s, N, b, j, E, idx, k);
    }
    hide Candidates, LabelOf, Insert, Energies, BestOf, RankOf, Priced, Distinct;
    CountStep(Candidates(s, b), N, l, m, j, LabelOf(s, b.paths[j], idx[k]), k);
  }

  lemma PreviousCheaper(s: Setup, N: nat, b: Beam, j: nat, E: seq<real>, idx: seq<int>, k: nat)
    requires Ready(s, N, b, j, E) && BestOf(RankOf(s, b.paths[j], E), s.K, N, idx) && 0 < k < N && |idx| == N
    ensures var c := Candidates(s, b);
      c(j, LabelOf(s, b.paths[j], idx[k - 1])) <= c(j, LabelOf(s, b.paths[j], idx[k]))
  {
    hide Candidates, LabelOf, Energies, RankOf;
    assert Before(RankOf(s, b.paths[j], E), idx[k - 1], idx[k]);
    CheaperRow(s, N, b, j, E, idx[k - 1], idx[k]);
  }

  lemma CountStep(c: Costs, N: nat, l: List, m: nat, j: nat, v: int, k: nat)
    requires Kept(c, N, l) && k < N && (k > 0 ==> l.dist[k - 1] <= c(j, v))
    requires c(j, v) < l.dist[N - 1] ==> Place(N, l, m, c(j, v))
    ensures var l' := if c(j, v) < l.dist[N - 1] then Insert(N, l, m, c(j, v), j, v) else l;
      Sized(N, l') && l'.dist[k] <= c(j, v)
  {
    hide Insert, Priced, Distinct;
    if c(j, v) < l.dist[N - 1] {
      InsertCounts(c, N, l, m, j, v, k + 1);
      InsertAt(N, l, m, c(j, v), j, v);
    } else {
      assert l.dist[k] <= l.dist[N - 1];
    }
  }

  /** A row that ranks no worse costs no more. */
  lemma CheaperRow(s: Setup, N: nat, b: Beam, j: nat, E: seq<real>, r: int, t: int)
    requires Ready(s, N, b, j, E) && 0 <= r < s.K && 0 <= t < s.K
    requires RankOf(s, b.paths[j], E)(r) <= RankOf(s, b.paths[j], E)(t)
    ensures var c := Candidates(s, b);
      c(j, LabelOf(s, b.paths[j], r)) <= c(j, LabelOf(s, b.paths[j], t))
  {
    RankIsError(s, b.paths[j], E, r);
    RankIsError(s, b.paths[j], E, t);
    hide LabelOf, RankOf, HalfError, Norm, Ahead;
  }

  /** After the N best rows, every row has been considered. */
  lemma AllRows(s: Setup, N: nat, b: Beam, j: nat, E: seq<real>, idx: seq<int>, l: List)
    requires Ready(s, N, b, j, E) && BestOf(RankOf(s, b.paths[j], E), s.K, N, idx) && Sized(N, l)
    requires |idx| == N && Offered(s, N, b, j, idx, N, l) && Counted(s, N, b, j, idx, N, l)
    ensures AllConsidered(s, N, b, j, l)
  {
    hide Candidates, LabelOf, Kept, Energies, Listed, BestOf, Offered, Counted, Considered, RankOf;
    forall row | 0 <= row < s.K
      ensures Considered(Candidates(s, b), N, l, j, LabelOf(s, b.paths[j], row))
    {
      AnyRow(s, N, b, j, E, idx, l, row);
    }
  }

  lemma AnyRow(s: Setup, N: nat, b: Beam, j: nat, E: seq<real>, idx: seq<int>, l: List, row: int)
    requires Ready(s, N, b, j, E) && BestOf(RankOf(s, b.paths[j], E), s.K, N, idx) && Sized(N, l)
    requires |idx| == N && Offered(s, N, b, j, idx, N, l) && Counted(s, N, b, j, idx, N, l)
    requires 0 <= row < s.K
    ensures Considered(Candidates(s, b), N, l, j, LabelOf(s, b.paths[j], row))
  {
    hide Candidates, LabelOf, Kept, Energies, Listed, RankOf;
    if row in idx {
      var a :| 0 <= a < N && idx[a] == row;
    } else {
      assert Before(RankOf(s, b.paths[j], E), idx[N - 1], row);
      CheaperRow(s, N, b, j, E, idx[N - 1], row);
    }
  }

  /** tener */
  method HalfNorm(x: seq<real>) returns (tener: real)
    ensures tener == 0.5 * Norm(x, |x|)
  {
    tener := 0.0;
    for m := 0 to |x|
      invariant tener == Power(x, 0, m)
    {
      tener := tener + x[m] * x[m];
    }
    tener := 0.5 * tener;
  }

  /** The nearest codewords after path j, offered to the list. */
  method SearchSlot(s: Setup, N: nat, ghost b: Beam, j: nat, x: seq<real>, odist: real, resp: seq<real>, E: seq<real>,
                    best_index: array<int>, best_dist: array<real>,
                    ndist: array<real>, best_nind: array<int>, best_ntarget: array<int>)
    requires Ready(s, N, b, j, E) && resp == Table(s) && x == Ahead(s, b.paths[j]) && odist == b.dists[j]
    requires ndist.Length == N && best_nind.Length == N && best_ntarget.Length == N
    requires best_index.Length == N && best_dist.Length == N
    requires best_nind != best_ntarget && best_index != best_nind && best_index != best_ntarget && best_dist != ndist
    requires var l := Read(N, ndist, best_nind, best_ntarget); Kept(Candidates(s, b), N, l) && Earlier(N, l, j)
    modifies best_index, best_dist, ndist, best_nind, best_ntarget
    ensures var l := old(Read(N, ndist, best_nind, best_ntarget)); var l' := Read(N, ndist, best_nind, best_ntarget);
      && Kept(Candidates(s, b), N, l') && Earlier(N, l', j + 1)
      && StillConsidered(Candidates(s, b), N, l, l') && AllConsidered(s, N, b, j, l')
  {
    hide Table, Ahead, Candidates, LabelOf, RankOf, Energies, Kept, Listed, Earlier, StillConsidered, AllConsidered, BestOf;
    hide Lists, Norm, Rows, Place, Insert, Progress;
    ghost var l0 := Read(N, ndist, best_nind, best_ntarget);
    var tener := HalfNorm(x);
    ghost var idx;
    SlotSizes(s, N, b, j, E, resp);
    if s.sign {
      idx := VqNbestSign(x, resp, s.L, s.K, E, N, best_index, best_dist);
    } else {
      idx := VqNbest(x, resp, s.L, s.K, E, N, best_index, best_dist);
    }
    ghost var bi, bd := best_index[..N], best_dist[..N];
    RowsOfSlot(s, N, b, j, E, idx, bi, bd, x, odist, tener);
    StartOffers(s, N, b, j, idx, l0);
    for k := 0 to N
      modifies ndist, best_nind, best_ntarget
      invariant best_index[..N] == bi && best_dist[..N] == bd
      invariant Progress(s, N, b, j, idx, k, l0, Read(N, ndist, best_nind, best_ntarget))
    {
      ghost var l := Read(N, ndist, best_nind, best_ntarget);
      var err := odist + best_dist[k] + tener;
      RowAt(s, N, b, j, idx, bi, bd, odist, tener, k);
      assert best_index[k] == bi[k] && best_dist[k] == bd[k];
      ProgressSorted(s, N, b, j, idx, k, l0, l);
      ghost var m := Offer(err, best_index[k], j, N, ndist, best_nind, best_ntarget);
      NextRow(s, N, b, j, E, idx, k, l0, l, Read(N, ndist, best_nind, best_ntarget), m);
    }
    EndOffers(s, N, b, j, E, idx, l0, Read(N, ndist, best_nind, best_ntarget));
  }

  /** The state of the list after k of the rows of slot j. */
  ghost predicate Progress(s: Setup, N: nat, b: Beam, j: nat, idx: seq<int>, k: nat, l0: List, l: List)
    requires s.L >= 1 && |b.dists| == |b.paths| && j < |b.paths| && k <= N && Sized(N, l0)
  {
    |idx| == N && Kept(Candidates(s, b), N, l) && Offered(s, N, b, j, idx, k, l)
    && Counted(s, N, b, j, idx, k, l) && StillConsidered(Candidates(s, b), N, l0, l)
  }

  lemma ProgressSorted(s: Setup, N: nat, b: Beam, j: nat, idx: seq<int>, k: nat, l0: List, l: List)
    requires s.L >= 1 && |b.dists| == |b.paths| && j < |b.paths| && k <= N && Sized(N, l0)
    requires Progress(s, N, b, j, idx, k, l0, l)
    ensures Sized(N, l) && Sorted(N, l)
  {
  }

  lemma SlotSizes(s: Setup, N: nat, b: Beam, j: nat, E: seq<real>, resp: seq<real>)
    requires Ready(s, N, b, j, E) && resp == Table(s)
    ensures |Ahead(s, b.paths[j])| == s.L && |resp| == s.K * s.L && |E| == s.K && 1 <= N <= s.K
    ensures s.sign ==> RankOf(s, b.paths[j], E) == SignRanks(Ahead(s, b.paths[j]), Table(s), s.L, E)
    ensures !s.sign ==> RankOf(s, b.paths[j], E) == Ranks(Ahead(s, b.paths[j]), Table(s), s.L, E)
  {
  }

  /** best_index and best_dist hold the labels and ranks of idx. */
  ghost predicate Rows(s: Setup, N: nat, b: Beam, j: nat, idx: seq<int>, bi: seq<int>, bd: seq<real>, odist: real, tener: real)
    requires s.L >= 1 && |b.dists| == |b.paths| && j < |b.paths|
  {
    |idx| == N && |bi| == N && |bd| == N &&
    forall k :: 0 <= k < N ==>
      bi[k] == LabelOf(s, b.paths[j], idx[k]) && odist + bd[k] + tener == Candidates(s, b)(j, bi[k])
  }

  lemma RowAt(s: Setup, N: nat, b: Beam, j: nat, idx: seq<int>, bi: seq<int>, bd: seq<real>, odist: real, tener: real, k: nat)
    requires s.L >= 1 && |b.dists| == |b.paths| && j < |b.paths| && Rows(s, N, b, j, idx, bi, bd, odist, tener) && k < N
    ensures bi[k] == LabelOf(s, b.paths[j], idx[k]) && odist + bd[k] + tener == Candidates(s, b)(j, bi[k])
  {
    hide LabelOf, Candidates;
  }

  lemma RowsOfSlot(s: Setup, N: nat, b: Beam, j: nat, E: seq<real>, idx: seq<int>, bi: seq<int>, bd: seq<real>,
                   x: seq<real>, odist: real, tener: real)
    requires Ready(s, N, b, j, E) && BestOf(RankOf(s, b.paths[j], E), s.K, N, idx) && |bi| == N && |bd| == N
    requires x == Ahead(s, b.paths[j]) && odist == b.dists[j] && tener == 0.5 * Norm(x, |x|)
    requires Lists(bi, bd, idx, RankOf(s, b.paths[j], E),
                   if s.sign then SignLabels(x, Table(s), s.L, s.K) else Plain())
    ensures |idx| == N && Rows(s, N, b, j, idx, bi, bd, odist, tener)
  {
    hide RankOf, Ahead, Table, Norm, Before, HalfError, Energies;
    forall k | 0 <= k < N
      ensures bi[k] == LabelOf(s, b.paths[j], idx[k]) && odist + bd[k] + tener == Candidates(s, b)(j, bi[k])
    {
      RankIsError(s, b.paths[j], E, idx[k]);
    }
  }

  lemma StartOffers(s: Setup, N: nat, b: Beam, j: nat, idx: seq<int>, l: List)
    requires s.L >= 1 && |b.dists| == |b.paths| && j < |b.paths| && N >= 1 && |idx| == N && Sized(N, l)
    requires Kept(Candidates(s, b), N, l) && Earlier(N, l, j)
    ensures Progress(s, N, b, j, idx, 0, l, l)
  {
    hide Candidates, LabelOf, Listed;
  }

  lemma EndOffers(s: Setup, N: nat, b: Beam, j: nat, E: seq<real>, idx: seq<int>, l0: List, l: List)
    requires Ready(s, N, b, j, E) && BestOf(RankOf(s, b.paths[j], E), s.K, N, idx) && |idx| == N && Sized(N, l0)
    requires Progress(s, N, b, j, idx, N, l0, l)
    ensures Kept(Candidates(s, b), N, l) && Sized(N, l) && Earlier(N, l, j + 1)
    ensures StillConsidered(Candidates(s, b), N, l0, l) && AllConsidered(s, N, b, j, l)
  {
    hide Candidates, LabelOf, Listed, BestOf, RankOf, AllConsidered;
    AllRows(s, N, b, j, E, idx, l);
  }

  lemma NextRow(s: Setup, N: nat, b: Beam, j: nat, E: seq<real>, idx: seq<int>, k: nat, l0: List, l: List, l': List, m: nat)
    requires Ready(s, N, b, j, E) && BestOf(RankOf(s, b.paths[j], E), s.K, N, idx) && k < N && |idx| == N
    requires Sized(N, l0) && Sized(N, l) && Progress(s, N, b, j, idx, k, l0, l)
    requires var v := LabelOf(s, b.paths[j], idx[k]); var d := Candidates(s, b)(j, v);
      if d < l.dist[N - 1] then Place(N, l, m, d) && l' == Insert(N, l, m, d, j, v) else l' == l
    ensures Progress(s, N, b, j, idx, k + 1, l0, l')
  {
    hide Candidates, LabelOf, Listed, Place, Insert, BestOf, RankOf, StillConsidered, Kept, Offered, Energies;
    CountRow(s, N, b, j, E, idx, k, l, l', m);
    if Candidates(s, b)(j, LabelOf(s, b.paths[j], idx[k])) < l.dist[N - 1] {
      OfferRow(s, N, b, j, E, idx, k, l, m);
      OfferedKept(s, N, b, j, idx, k + 1, l');
      StillTrans(Candidates(s, b), N, l0, l, l');
    } else {
      RejectRow(s, N, b, j, E, idx, k, l);
    }
  }

  lemma OfferedKept(s: Setup, N: nat, b: Beam, j: nat, idx: seq<int>, k: nat, l: List)
    requires s.L >= 1 && |b.dists| == |b.paths| && j < |b.paths| && k <= |idx| && Offered(s, N, b, j, idx, k, l)
    ensures Kept(Candidates(s, b), N, l)
  {
  }

  lemma StillTrans(c: Costs, N: nat, l: List, l': List, l'': List)
    requires Sized(N, l) && Sized(N, l') && Sized(N, l'')
    requires StillConsidered(c, N, l, l') && StillConsidered(c, N, l', l'')
    ensures StillConsidered(c, N, l, l'')
  {
    hide Considered;
  }

  // ------------------------------------------------- updating the targets

  /** t[n] -= g r[n], from o on. */
  method TargetUpdate(t: array<real>, o: nat, g: real, r: seq<real>, q: nat, len: nat)
    requires o + len == t.Length && q + len <= |r|
    modifies t
    ensures t[..o] == old(t[..o])
    ensures forall n :: o <= n < t.Length ==> t[n] == old(t[n]) - g * r[n - o + q]
  {
    for n := 0 to len
      invariant t[..o] == old(t[..o])
      invariant forall k :: o <= k < o + n ==> t[k] == old(t[k]) - g * r[k - o + q]
      invariant forall k :: o + n <= k < t.Length ==> t[k] == old(t[k])
    {
      t[o + n] := t[o + n] - g * r[n + q];
    }
  }

  /** The target less the first m values of a new codeword v. */
  function PartialRest(s: Setup, path: seq<int>, v: int, m: nat): Signal {
    n => Rest(s, path)(n) - Sum(m, Terms(s, v, n - |path| * s.L))
  }

  lemma PartialNone(s: Setup, path: seq<int>, v: int, n: int)
    ensures PartialRest(s, path, v, 0)(n) == Rest(s, path)(n)
  {
    hide Rest;
  }

  lemma PartialAll(s: Setup, path: seq<int>, v: int, n: int)
    ensures PartialRest(s, path, v, s.L)(n) == Rest(s, path + [v])(n)
  {
    RestStep(s, path, v, n);
    hide Rest, Sum, Terms;
  }

  lemma PartialMore(s: Setup, path: seq<int>, v: int, m: nat, n: int)
    ensures PartialRest(s, path, v, m + 1)(n)
         == PartialRest(s, path, v, m)(n) - Word(s, v, m) * At(s.r, n - |path| * s.L - m)
  {
    SumStep(m + 1, Terms(s, v, n - |path| * s.L));
    hide Rest, Sum, Word, At;
  }

  /** Subtracts codeword v, chosen after path, from what follows it. */
  method SubtractTail(s: Setup, M: nat, ghost path: seq<int>, i: nat, v: int, t: array<real>)
    requires Proper(s, M) && i < M && |path| == i && Label(s, v) && t.Length == M * s.L
    requires forall n :: (i + 1) * s.L <= n < M * s.L ==> t[n] == Rest(s, path)(n)
    modifies t
    ensures forall n :: (i + 1) * s.L <= n < M * s.L ==> t[n] == Rest(s, path + [v])(n)
    ensures var o := Min((i + 1) * s.L, M * s.L); 0 <= o && t[..o] == old(t[..o])
  {
    hide Rest, Word, PartialRest;
    var o := (i + 1) * s.L;
    RowBound(i, M, s.L);
    forall n | o <= n < M * s.L
      ensures t[n] == PartialRest(s, path, v, 0)(n)
    {
      PartialNone(s, path, v, n);
    }
    for m := 0 to s.L
      invariant forall n :: o <= n < M * s.L ==> t[n] == PartialRest(s, path, v, m)(n)
      invariant t[..o] == old(t[..o])
    {
      var g := CodeValue(s, v, m);
      var q := s.L - m;
      ghost var before := t[..];
      TargetUpdate(t, o, g, s.r, q, M * s.L - o);
      forall n | o <= n < M * s.L
        ensures t[n] == PartialRest(s, path, v, m + 1)(n)
      {
        PartialMore(s, path, v, m, n);
        assert n - o + q == n - i * s.L - m;
        assert before[n] == PartialRest(s, path, v, m)(n);
      }
    }
    forall n | o <= n < M * s.L
      ensures t[n] == Rest(s, path + [v])(n)
    {
      PartialAll(s, path, v, n);
    }
  }

  /** g: value m of codeword v. */
  method CodeValue(s: Setup, v: int, m: nat) returns (g: real)
    requires |s.cb| == s.K * s.L && Label(s, v) && m < s.L
    ensures g == Word(s, v, m)
  {
    var rind := v;
    var sign := 1.0;
    if rind >= s.K {
      sign := -1.0;
      rind := rind - s.K;
    }
    EntryInBook(rind, s.K, s.L, m, |s.cb|);
    g := sign * 0.03125 * s.cb[rind * s.L + m] as real;
  }

  // ------------------------------------------------------------ one round

  ghost predicate PathOk(s: Setup, i: nat, path: seq<int>) {
    |path| == i && forall k :: 0 <= k < i ==> Label(s, path[k])
  }

  /** The distance kept for a path in use is its cost. */
  predicate DistOk(s: Setup, path: seq<int>, d: real) {
    if d < VERY_LARGE then d == Cost(s, path) else d == VERY_LARGE
  }

  ghost predicate TargetOk(s: Setup, M: nat, i: nat, path: seq<int>, t: seq<real>) {
    |t| == M * s.L && forall n :: 0 <= i * s.L <= n < M * s.L ==> t[n] == Rest(s, path)(n)
  }

  /** Only one slot is used for the first subvector: all paths are empty. */
  function Used(N: nat, i: nat): nat {
    if i == 0 then 1 else N
  }

  ghost predicate Faithful(s: Setup, M: nat, N: nat, i: nat, b: Beam, ot: seq<seq<real>>) {
    && |b.paths| == N && |b.dists| == N && |ot| == N
    && (forall j :: 0 <= j < N ==> PathOk(s, i, b.paths[j]) && DistOk(s, b.paths[j], b.dists[j]) && TargetOk(s, M, i, b.paths[j], ot[j]))
  }

  /** No path in use is kept twice. */
  ghost predicate Different(N: nat, i: nat, b: Beam) {
    && |b.paths| == N && |b.dists| == N
    && forall a, c :: 0 <= a < c < Used(N, i) && b.dists[a] < VERY_LARGE && b.dists[c] < VERY_LARGE ==> b.paths[a] != b.paths[c]
  }

  ghost predicate InBeam(b: Beam, path: seq<int>) {
    exists a :: 0 <= a < |b.paths| && a < |b.dists| && b.dists[a] < VERY_LARGE && b.paths[a] == path
  }

  /** A path of b, in use, with one more codeword. */
  ghost predicate Extends(s: Setup, N: nat, i: nat, b: Beam, path: seq<int>) {
    exists j, v :: 0 <= j < Used(N, i) && j < |b.paths| && j < |b.dists| && b.dists[j] < VERY_LARGE && Label(s, v) && path == b.paths[j] + [v]
  }

  /** b' holds the N cheapest extensions of b by any codeword (with its nearer
      sign), cheapest first: everything else costs at least as much as the
      last, or as VERY_LARGE. */
  ghost predicate CheapestExtensions(s: Setup, N: nat, i: nat, b: Beam, b': Beam)
    requires s.L >= 1
  {
    && |b.paths| == N && |b.dists| == N && |b'.paths| == N && |b'.dists| == N && N >= 1
    && (forall a, c :: 0 <= a < c < N ==> b'.dists[a] <= b'.dists[c])
    && (forall a :: 0 <= a < N && b'.dists[a] < VERY_LARGE ==>
          Extends(s, N, i, b, b'.paths[a]) && b'.dists[a] == Cost(s, b'.paths[a]))
    && Different(N, i + 1, b')
    && forall j, row :: 0 <= j < Used(N, i) && b.dists[j] < VERY_LARGE && 0 <= row < s.K ==>
         var path := b.paths[j] + [LabelOf(s, b.paths[j], row)];
         InBeam(b', path) || b'.dists[N - 1] <= Cost(s, path)
  }

  /** The beam a list stands for. */
  function NextOf(N: nat, b: Beam, l: List): Beam
    requires Sized(N, l) && forall a :: 0 <= a < N ==> 0 <= l.from[a] < |b.paths|
  {
    Beam(seq(N, a requires 0 <= a < N => b.paths[l.from[a]] + [l.ind[a]]), l.dist)
  }

  lemma {:induction false} SquaredNonnegative(x: seq<real>, y: seq<real>, o: int, c: real, len: nat)
    ensures Squared(x, y, o, c, len) >= 0.0
  {
    if len > 0 {
      SquaredNonnegative(x, y, o, c, len - 1);
      RealSquare(At(x, len - 1) - c * At(y, o + len - 1));
    }
  }

  lemma RealSquare(d: real)
    ensures d * d >= 0.0
  {
  }

  /** A candidate's price, if it can be listed at all, is the cost of its path. */
  lemma PriceIsCost(s: Setup, M: nat, N: nat, i: nat, b: Beam, ot: seq<seq<real>>, j: int, v: int)
    requires s.L >= 1 && Faithful(s, M, N, i, b, ot)
    ensures Candidates(s, b)(j, v) < VERY_LARGE ==>
      0 <= j < N && Label(s, v) && b.dists[j] < VERY_LARGE && Candidates(s, b)(j, v) == Cost(s, b.paths[j] + [v])
    ensures 0 <= j < N && Label(s, v) && b.dists[j] < VERY_LARGE ==> Candidates(s, b)(j, v) == Cost(s, b.paths[j] + [v])
  {
    hide Cost, Table, Squared, TargetOk, Ahead;
    if 0 <= j < N && Label(s, v) {
      SquaredNonnegative(Ahead(s, b.paths[j]), Table(s), RowOf(s, v) * s.L, SignOf(s, v), s.L);
      TableIsWeighted(s);
      CostOfChoice(s, b.paths[j], v, Table(s));
      assert DistOk(s, b.paths[j], b.dists[j]);
    }
  }

  /** Where listed candidates come from. */
  lemma SlotSource(s: Setup, M: nat, N: nat, i: nat, b: Beam, ot: seq<seq<real>>, l: List, a: nat)
    requires s.L >= 1 && s.K >= 1 && Faithful(s, M, N, i, b, ot) && Kept(Candidates(s, b), N, l) && a < N
    ensures 0 <= l.from[a] < N && Label(s, l.ind[a])
    ensures DistOk(s, b.paths[l.from[a]] + [l.ind[a]], l.dist[a])
    ensures l.dist[a] < VERY_LARGE ==> b.dists[l.from[a]] < VERY_LARGE
  {
    hide Candidates, Sorted, Distinct, Cost, PathOk, TargetOk, DistOk;
    assert SlotHolds(Candidates(s, b), l.dist[a], l.from[a], l.ind[a]);
    PriceIsCost(s, M, N, i, b, ot, l.from[a], l.ind[a]);
    DistIs(s, b.paths[l.from[a]] + [l.ind[a]], l.dist[a]);
  }

  lemma DistIs(s: Setup, path: seq<int>, d: real)
    ensures DistOk(s, path, d) <==> (if d < VERY_LARGE then d == Cost(s, path) else d == VERY_LARGE)
  {
    hide Cost;
  }

  lemma NextFaithful(s: Setup, M: nat, N: nat, i: nat, b: Beam, ot: seq<seq<real>>, l: List, j: nat)
    requires s.L >= 1 && s.K >= 1 && Faithful(s, M, N, i, b, ot) && Kept(Candidates(s, b), N, l) && j < N
    ensures 0 <= l.from[j] < N && Label(s, l.ind[j])
    ensures PathOk(s, i + 1, b.paths[l.from[j]] + [l.ind[j]]) && DistOk(s, b.paths[l.from[j]] + [l.ind[j]], l.dist[j])
  {
    SlotSource(s, M, N, i, b, ot, l, j);
    hide Candidates, Kept, Cost;
    assert PathOk(s, i, b.paths[l.from[j]]);
  }

  lemma NextSources(s: Setup, M: nat, N: nat, i: nat, b: Beam, ot: seq<seq<real>>, l: List)
    requires s.L >= 1 && s.K >= 1 && Faithful(s, M, N, i, b, ot) && Kept(Candidates(s, b), N, l)
    ensures forall a :: 0 <= a < N ==> 0 <= l.from[a] < |b.paths|
  {
    forall a | 0 <= a < N
      ensures 0 <= l.from[a] < |b.paths|
    {
      SlotSource(s, M, N, i, b, ot, l, a);
    }
  }

  /** Distinct candidates are distinct paths. */
  lemma NextDifferent(s: Setup, M: nat, N: nat, i: nat, b: Beam, ot: seq<seq<real>>, l: List)
    requires s.L >= 1 && s.K >= 1 && Faithful(s, M, N, i, b, ot) && Kept(Candidates(s, b), N, l) && Earlier(N, l, Used(N, i))
    requires Different(N, i, b) && forall a :: 0 <= a < N ==> 0 <= l.from[a] < |b.paths|
    ensures Different(N, i + 1, NextOf(N, b, l))
  {
    var b' := NextOf(N, b, l);
    forall a, c | 0 <= a < c < Used(N, i + 1) && b'.dists[a] < VERY_LARGE && b'.dists[c] < VERY_LARGE
      ensures b'.paths[a] != b'.paths[c]
    {
      PairDifferent(s, M, N, i, b, ot, l, a, c);
    }
  }

  lemma PairDifferent(s: Setup, M: nat, N: nat, i: nat, b: Beam, ot: seq<seq<real>>, l: List, a: nat, c: nat)
    requires s.L >= 1 && s.K >= 1 && Faithful(s, M, N, i, b, ot) && Kept(Candidates(s, b), N, l) && Earlier(N, l, Used(N, i))
    requires Different(N, i, b) && 0 <= a < c < N && l.dist[a] < VERY_LARGE && l.dist[c] < VERY_LARGE
    ensures 0 <= l.from[a] < N && 0 <= l.from[c] < N
    ensures b.paths[l.from[a]] + [l.ind[a]] != b.paths[l.from[c]] + [l.ind[c]]
  {
    SlotSource(s, M, N, i, b, ot, l, a);
    SlotSource(s, M, N, i, b, ot, l, c);
    assert Holds(l, N, a, l.from[a], l.ind[a]) && Holds(l, N, c, l.from[c], l.ind[c]);
    assert Listed(N, l, l.from[a], l.ind[a]) && Listed(N, l, l.from[c], l.ind[c]);
    hide Candidates, Priced, Sorted, DistOk, Faithful;
    var p, q := b.paths[l.from[a]], b.paths[l.from[c]];
    if p + [l.ind[a]] == q + [l.ind[c]] {
      SameEnds(p, l.ind[a], q, l.ind[c]);
    }
  }

  lemma SameEnds(p: seq<int>, v: int, q: seq<int>, w: int)
    requires p + [v] == q + [w]
    ensures p == q && v == w
  {
    assert |p + [v]| == |q + [w]|;
    assert (p + [v])[..|p|] == (q + [w])[..|p|];
    assert (p + [v])[|p|] == (q + [w])[|p|];
  }

  lemma NextCheapest(s: Setup, M: nat, N: nat, i: nat, b: Beam, ot: seq<seq<real>>, l: List)
    requires s.L >= 1 && s.K >= 1 && N >= 1 && Faithful(s, M, N, i, b, ot) && Kept(Candidates(s, b), N, l) && Earlier(N, l, Used(N, i))
    requires Different(N, i, b) && forall a :: 0 <= a < N ==> 0 <= l.from[a] < |b.paths|
    requires forall j :: 0 <= j < Used(N, i) ==> AllConsidered(s, N, b, j, l)
    ensures CheapestExtensions(s, N, i, b, NextOf(N, b, l))
  {
    var b' := NextOf(N, b, l);
    NextDifferent(s, M, N, i, b, ot, l);
    forall a | 0 <= a < N && b'.dists[a] < VERY_LARGE
      ensures Extends(s, N, i, b, b'.paths[a]) && b'.dists[a] == Cost(s, b'.paths[a])
    {
      NextExtends(s, M, N, i, b, ot, l, a);
    }
    forall j, row | 0 <= j < Used(N, i) && b.dists[j] < VERY_LARGE && 0 <= row < s.K
      ensures var path := b.paths[j] + [LabelOf(s, b.paths[j], row)];
        InBeam(b', path) || b'.dists[N - 1] <= Cost(s, path)
    {
      NextComplete(s, M, N, i, b, ot, l, j, row);
    }
  }

  lemma NextExtends(s: Setup, M: nat, N: nat, i: nat, b: Beam, ot: seq<seq<real>>, l: List, a: nat)
    requires s.L >= 1 && s.K >= 1 && Faithful(s, M, N, i, b, ot) && Kept(Candidates(s, b), N, l) && Earlier(N, l, Used(N, i))
    requires a < N && l.dist[a] < VERY_LARGE
    ensures 0 <= l.from[a] < N
    ensures var path := b.paths[l.from[a]] + [l.ind[a]];
      Extends(s, N, i, b, path) && l.dist[a] == Cost(s, path)
  {
    SlotSource(s, M, N, i, b, ot, l, a);
    assert Holds(l, N, a, l.from[a], l.ind[a]);
    assert Listed(N, l, l.from[a], l.ind[a]);
  }

  lemma NextComplete(s: Setup, M: nat, N: nat, i: nat, b: Beam, ot: seq<seq<real>>, l: List, j: nat, row: nat)
    requires s.L >= 1 && N >= 1 && Faithful(s, M, N, i, b, ot) && Kept(Candidates(s, b), N, l)
    requires j < Used(N, i) && j < N && b.dists[j] < VERY_LARGE && row < s.K && AllConsidered(s, N, b, j, l)
    requires forall a :: 0 <= a < N ==> 0 <= l.from[a] < |b.paths|
    ensures var path := b.paths[j] + [LabelOf(s, b.paths[j], row)];
      InBeam(NextOf(N, b, l), path) || l.dist[N - 1] <= Cost(s, path)
  {
    var v := LabelOf(s, b.paths[j], row);
    LabelIn(s, b.paths[j], row);
    PriceIsCost(s, M, N, i, b, ot, j, v);
    hide *;
    RowConsidered(s, N, b, j, l, row, v);
    if Listed(N, l, j, v) {
      ListedInBeam(N, b, l, j, v);
    }
  }

  lemma RowConsidered(s: Setup, N: nat, b: Beam, j: nat, l: List, row: nat, v: int)
    requires s.L >= 1 && |b.dists| == |b.paths| && j < |b.paths| && Sized(N, l) && row < s.K && AllConsidered(s, N, b, j, l)
    requires v == LabelOf(s, b.paths[j], row)
    ensures Listed(N, l, j, v) || l.dist[N - 1] <= Candidates(s, b)(j, v)
  {
    hide Candidates, LabelOf, Listed;
    assert Considered(Candidates(s, b), N, l, j, LabelOf(s, b.paths[j], row));
  }

  lemma ListedInBeam(N: nat, b: Beam, l: List, j: nat, v: int)
    requires Sized(N, l) && j < |b.paths| && Listed(N, l, j, v)
    requires forall a :: 0 <= a < N ==> 0 <= l.from[a] < |b.paths|
    ensures InBeam(NextOf(N, b, l), b.paths[j] + [v])
  {
    var a :| 0 <= a < N && Holds(l, N, a, j, v);
    assert NextOf(N, b, l).paths[a] == b.paths[j] + [v];
  }

  lemma LabelIn(s: Setup, path: seq<int>, row: nat)
    requires s.L >= 1 && row < s.K
    ensures Label(s, LabelOf(s, path, row))
  {
    hide Ahead, Table, Dot;
  }

  /** Offers every codeword after every path in use. */
  method OfferAll(s: Setup, M: nat, N: nat, i: nat, ghost b: Beam, ot: seq<seq<real>>, odist: seq<real>, resp: seq<real>, E: seq<real>,
                  ndist: array<real>, best_nind: array<int>, best_ntarget: array<int>)
    requires Proper(s, M) && i < M && 1 <= N <= s.K && Faithful(s, M, N, i, b, ot) && odist == b.dists
    requires resp == Table(s) && Energies(s, E)
    requires ndist.Length == N && best_nind.Length == N && best_ntarget.Length == N && best_nind != best_ntarget
    modifies ndist, best_nind, best_ntarget
    ensures var l := Read(N, ndist, best_nind, best_ntarget);
      && Kept(Candidates(s, b), N, l) && Earlier(N, l, Used(N, i))
      && forall j :: 0 <= j < Used(N, i) ==> AllConsidered(s, N, b, j, l)
  {
    hide Table, Kept, Candidates, Energies, Earlier, AllConsidered, Listed, Considered, PathOk, DistOk, TargetOk, Ahead, Empty;
    var best_index, best_dist := new int[N], new real[N];
    Erase(s, N, b, ndist, best_nind, best_ntarget);
    var j := 0;
    var more := true;
    while more
      modifies best_index, best_dist, ndist, best_nind, best_ntarget
      invariant j <= Used(N, i) && (more ==> j < Used(N, i)) && (!more ==> j == Used(N, i))
      invariant var l := Read(N, ndist, best_nind, best_ntarget);
        && Kept(Candidates(s, b), N, l) && Sized(N, l) && Earlier(N, l, j)
        && forall j' :: 0 <= j' < j ==> AllConsidered(s, N, b, j', l)
      decreases Used(N, i) - j, more
    {
      ghost var l := Read(N, ndist, best_nind, best_ntarget);
      SliceIsAhead(s, M, N, i, b, ot, j);
      var x := ot[j][i * s.L..i * s.L + s.L];
      SearchSlot(s, N, b, j, x, odist[j], resp, E, best_index, best_dist, ndist, best_nind, best_ntarget);
      StillAll(s, N, b, j, l, Read(N, ndist, best_nind, best_ntarget));
      j := j + 1;
      more := i != 0 && j < N;
    }
  }

  /** "Erases" the list. */
  method Erase(s: Setup, N: nat, ghost b: Beam, ndist: array<real>, best_nind: array<int>, best_ntarget: array<int>)
    requires s.L >= 1 && |b.dists| == |b.paths| && N >= 1
    requires ndist.Length == N && best_nind.Length == N && best_ntarget.Length == N && best_nind != best_ntarget
    modifies ndist, best_nind, best_ntarget
    ensures var l := Read(N, ndist, best_nind, best_ntarget);
      Kept(Candidates(s, b), N, l) && Sized(N, l) && Earlier(N, l, 0)
  {
    for j := 0 to N
      invariant forall k :: 0 <= k < j ==> ndist[k] == VERY_LARGE && best_nind[k] == 0 && best_ntarget[k] == 0
    {
      ndist[j] := VERY_LARGE;
      best_nind[j] := 0;
      best_ntarget[j] := 0;
    }
    ghost var l := Read(N, ndist, best_nind, best_ntarget);
    assert l == Empty(N) by {
      assert l.dist == Empty(N).dist && l.ind == Empty(N).ind && l.from == Empty(N).from;
    }
    EmptyKept(Candidates(s, b), N);
  }

  lemma SliceIsAhead(s: Setup, M: nat, N: nat, i: nat, b: Beam, ot: seq<seq<real>>, j: nat)
    requires Proper(s, M) && i < M && Faithful(s, M, N, i, b, ot) && j < N
    ensures 0 <= i * s.L && i * s.L + s.L <= |ot[j]|
    ensures ot[j][i * s.L..i * s.L + s.L] == Ahead(s, b.paths[j])
  {
    RowBound(i, M, s.L);
    assert TargetOk(s, M, i, b.paths[j], ot[j]) && PathOk(s, i, b.paths[j]);
    hide Faithful, Rest;
    assert |b.paths[j]| * s.L == i * s.L;
  }

  lemma StillAll(s: Setup, N: nat, b: Beam, j: nat, l: List, l': List)
    requires s.L >= 1 && |b.dists| == |b.paths| && j < |b.paths| && Sized(N, l) && Sized(N, l')
    requires StillConsidered(Candidates(s, b), N, l, l')
    ensures forall j' :: 0 <= j' < j && AllConsidered(s, N, b, j', l) ==> AllConsidered(s, N, b, j', l')
  {
    hide Candidates, LabelOf, Considered;
  }

  /** The beam that the first i entries of the index rows stand for. */
  function BeamOf(ind: seq<seq<int>>, dist: seq<real>, i: nat): Beam
    requires forall j :: 0 <= j < |ind| ==> i <= |ind[j]|
  {
    Beam(seq(|ind|, j requires 0 <= j < |ind| => ind[j][..i]), dist)
  }

  ghost predicate Rectangular(ind: seq<seq<int>>, N: nat, M: nat) {
    |ind| == N && forall j :: 0 <= j < N ==> |ind[j]| == M
  }

  /** The new targets and index rows, from the list. */
  method NextRows(s: Setup, M: nat, N: nat, i: nat, ghost b: Beam, ot: seq<seq<real>>, oind: seq<seq<int>>, ghost l: List,
                  best_nind: seq<int>, best_ntarget: seq<int>) returns (nt: seq<seq<real>>, nind: seq<seq<int>>)
    requires Proper(s, M) && i < M && 1 <= N <= s.K && Rectangular(oind, N, M)
    requires b.paths == BeamOf(oind, b.dists, i).paths && Faithful(s, M, N, i, b, ot)
    requires Sized(N, l) && Kept(Candidates(s, b), N, l) && best_nind == l.ind && best_ntarget == l.from
    ensures Rectangular(nind, N, M) && forall a :: 0 <= a < N ==> 0 <= l.from[a] < |b.paths|
    ensures BeamOf(nind, l.dist, i + 1) == NextOf(N, b, l) && Faithful(s, M, N, i + 1, NextOf(N, b, l), nt)
  {
    hide Candidates, Kept, PathOk, DistOk, TargetOk;
    NextSources(s, M, N, i, b, ot, l);
    ghost var b' := NextOf(N, b, l);
    nt, nind := [], [];
    for j := 0 to N
      invariant |nt| == j && |nind| == j
      invariant forall a :: 0 <= a < j ==>
        |nind[a]| == M && nind[a][..i + 1] == b'.paths[a]
        && PathOk(s, i + 1, b'.paths[a]) && DistOk(s, b'.paths[a], b'.dists[a]) && TargetOk(s, M, i + 1, b'.paths[a], nt[a])
    {
      NextFaithful(s, M, N, i, b, ot, l, j);
      var from, v := best_ntarget[j], best_nind[j];
      var row := NextTarget(s, M, i, b.paths[from], ot[from], v);
      nt := nt + [row];
      nind := nind + [oind[from][i := v]];
      assert oind[from][i := v][..i + 1] == oind[from][..i] + [v];
    }
    assert BeamOf(nind, l.dist, i + 1).paths == b'.paths;
  }

  /** nt[j] */
  method NextTarget(s: Setup, M: nat, i: nat, ghost path: seq<int>, old_t: seq<real>, v: int) returns (row: seq<real>)
    requires Proper(s, M) && i < M && PathOk(s, i, path) && Label(s, v) && TargetOk(s, M, i, path, old_t)
    ensures TargetOk(s, M, i + 1, path + [v], row)
  {
    hide Rest;
    RowBound(i, M, s.L);
    var t := new real[M * s.L];
    forall n | 0 <= n < M * s.L {
      t[n] := old_t[n];
    }
    SubtractTail(s, M, path, i, v, t);
    row := t[..];
  }

  // ---------------------------------------------------------- the searches

  /** One run of the beam, subvector by subvector. */
  ghost predicate BeamRun(s: Setup, N: nat, M: nat, beams: seq<Beam>)
    requires s.L >= 1
  {
    |beams| == M + 1 && forall i :: 0 <= i < M ==> CheapestExtensions(s, N, i, beams[i], beams[i + 1])
  }

  /** The beam search: the best path it finds and the distance it kept for it. */
  method BeamSearch(s: Setup, M: nat, N: nat) returns (path: seq<int>, dist: real, ghost beams: seq<Beam>)
    requires Proper(s, M) && M >= 1 && 2 <= N <= s.K
    ensures PathOk(s, M, path) && DistOk(s, path, dist)
    ensures BeamRun(s, N, M, beams) && beams[0].paths == seq(N, _ => [])
    ensures |beams[M].paths| == N && |beams[M].dists| == N && beams[M].paths[0] == path && beams[M].dists[0] == dist
  {
    hide Table, Energies, Faithful, CheapestExtensions, Different, PathOk, DistOk;
    AtLeastRow(s, M);
    var resp, E := ComputeWeightedCodebook(s);
    var respTable, energies := resp[..], E[..];
    EnergiesHere(s, energies);
    var ot := seq(N, _ => s.target);
    var oind := seq(N, _ => seq(M, _ => 0));
    var odist: seq<real> := seq(N, _ => 0.0);
    StartBeam(s, M, N, ot, oind, odist);
    beams := [BeamOf(oind, odist, 0)];
    for i := 0 to M
      invariant Rectangular(oind, N, M) && |odist| == N && |beams| == i + 1 && beams[i] == BeamOf(oind, odist, i)
      invariant Faithful(s, M, N, i, beams[i], ot) && Different(N, i, beams[i])
      invariant beams[0].paths == seq(N, _ => [])
      invariant forall k :: 0 <= k < i ==> CheapestExtensions(s, N, k, beams[k], beams[k + 1])
    {
      ot, oind, odist := OneSubvector(s, M, N, i, ot, oind, odist, respTable, energies);
      beams := beams + [BeamOf(oind, odist, i + 1)];
    }
    path, dist := oind[0], odist[0];
    BestPath(s, M, N, beams[M], ot);
    assert oind[0][..M] == oind[0];
  }

  /** One round of the search: every path in use, every codeword, the N
      cheapest kept. */
  method OneSubvector(s: Setup, M: nat, N: nat, i: nat, ot: seq<seq<real>>, oind: seq<seq<int>>, odist: seq<real>,
                      resp: seq<real>, E: seq<real>)
    returns (nt: seq<seq<real>>, nind: seq<seq<int>>, nodist: seq<real>)
    requires Proper(s, M) && i < M && 2 <= N <= s.K && Rectangular(oind, N, M) && |odist| == N && resp == Table(s) && Energies(s, E)
    requires var b := BeamOf(oind, odist, i); Faithful(s, M, N, i, b, ot) && Different(N, i, b)
    ensures Rectangular(nind, N, M) && |nodist| == N
    ensures var b, b' := BeamOf(oind, odist, i), BeamOf(nind, nodist, i + 1);
      Faithful(s, M, N, i + 1, b', nt) && Different(N, i + 1, b') && CheapestExtensions(s, N, i, b, b')
  {
    hide Table, Kept, Candidates, Energies, Earlier, AllConsidered, Faithful, CheapestExtensions, Different, NextOf;
    ghost var b := BeamOf(oind, odist, i);
    var ndist, best_nind, best_ntarget := new real[N], new int[N], new int[N];
    OfferAll(s, M, N, i, b, ot, odist, resp, E, ndist, best_nind, best_ntarget);
    ghost var l := Read(N, ndist, best_nind, best_ntarget);
    nodist := ndist[..];
    assert nodist == l.dist;
    nt, nind := NextRows(s, M, N, i, b, ot, oind, l, best_nind[..], best_ntarget[..]);
    NextCheapest(s, M, N, i, b, ot, l);
    NextDifferent(s, M, N, i, b, ot, l);
  }

  lemma AtLeastRow(s: Setup, M: nat)
    requires Proper(s, M) && M >= 1
    ensures |s.r| >= s.L
  {
    RowBound(0, M, s.L);
  }

  lemma EnergiesHere(s: Setup, E: seq<real>)
    requires s.L >= 1 && |E| == s.K && forall i :: 0 <= i < s.K ==> E[i] == Energy(Table(s), s.L, i)
    ensures Energies(s, E)
  {
  }

  lemma StartBeam(s: Setup, M: nat, N: nat, ot: seq<seq<real>>, oind: seq<seq<int>>, odist: seq<real>)
    requires Proper(s, M) && N >= 1 && ot == seq(N, _ => s.target) && oind == seq(N, _ => seq(M, _ => 0)) && odist == seq(N, _ => 0.0)
    ensures Rectangular(oind, N, M)
    ensures var b := BeamOf(oind, odist, 0); Faithful(s, M, N, 0, b, ot) && Different(N, 0, b) && b.paths == seq(N, _ => [])
  {
    var b := BeamOf(oind, odist, 0);
    forall j | 0 <= j < N
      ensures b.paths[j] == [] && PathOk(s, 0, b.paths[j]) && DistOk(s, b.paths[j], b.dists[j]) && TargetOk(s, M, 0, b.paths[j], ot[j])
    {
    }
  }

  lemma BestPath(s: Setup, M: nat, N: nat, b: Beam, ot: seq<seq<real>>)
    requires Faithful(s, M, N, M, b, ot) && N >= 1
    ensures |b.paths| == N && |b.dists| == N && PathOk(s, M, b.paths[0]) && DistOk(s, b.paths[0], b.dists[0])
  {
    hide PathOk, DistOk, TargetOk;
  }
}
