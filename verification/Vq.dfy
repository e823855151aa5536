/** The nearest-codeword searches of vq.c over exact reals. */
module Vq {
  import opened IntArith
  import opened RealSums

  /** The inner product of the first len values of x and of y from o. */
  function Inner(x: seq<real>, y: seq<real>, o: int, len: nat): real {
    if len == 0 then 0.0 else Inner(x, y, o, len - 1) + At(x, len - 1) * At(y, o + len - 1)
  }

  /** The squared length of len values of y from o. */
  function Power(y: seq<real>, o: int, len: nat): real {
    if len == 0 then 0.0 else Power(y, o, len - 1) + At(y, o + len - 1) * At(y, o + len - 1)
  }

  /** The squared distance of x from s times the values of y from o. */
  function Squared(x: seq<real>, y: seq<real>, o: int, s: real, len: nat): real {
    if len == 0 then 0.0
    else
      var d := At(x, len - 1) - s * At(y, o + len - 1);
      Squared(x, y, o, s, len - 1) + d * d
  }

  /** The inner product of x with row i of a codebook of rows of len. */
  function Dot(x: seq<real>, cb: seq<real>, len: nat, i: int): real {
    Inner(x, cb, i * len, len)
  }

  function Energy(cb: seq<real>, len: nat, i: int): real {
    Power(cb, i * len, len)
  }

  /** The squared distance of x from s times row i. */
  function SquaredDistance(x: seq<real>, cb: seq<real>, len: nat, i: int, s: real): real {
    Squared(x, cb, i * len, s, len)
  }

  function Norm(x: seq<real>, len: nat): real {
    Power(x, 0, len)
  }

  /** What vq_nbest ranks row i by. */
  function Rank(x: seq<real>, cb: seq<real>, len: nat, E: seq<real>, i: int): real {
    0.5 * At(E, i) - Dot(x, cb, len, i)
  }

  /** What vq_nbest_sign ranks row i by: the better of its two signs. */
  function SignRank(x: seq<real>, cb: seq<real>, len: nat, E: seq<real>, i: int): real {
    var d := Dot(x, cb, len, i);
    0.5 * At(E, i) - (if d > 0.0 then d else -d)
  }

  /** Expanding the square: a sign s of 1 or -1 only flips the cross term. */
  lemma {:induction false} SquaredExpands(x: seq<real>, y: seq<real>, o: int, s: real, len: nat)
    requires s * s == 1.0
    ensures Squared(x, y, o, s, len) == Power(x, 0, len) + Power(y, o, len) - 2.0 * (s * Inner(x, y, o, len))
  {
    SquaredSpread(x, y, o, s, len);
    hide Squared, Power, Inner;
  }

  /** The squared distance of s b from a, and the sums it makes up. */
  function Apart(a: real, b: real, s: real): real {
    (a - s * b) * (a - s * b)
  }

  function Spread(s: real, p: real, q: real, t: real): real {
    p + q - 2.0 * (s * t)
  }

  lemma {:induction false} SquaredSpread(x: seq<real>, y: seq<real>, o: int, s: real, len: nat)
    requires RealTimes(s, s) == 1.0
    ensures Squared(x, y, o, s, len) == Spread(s, Power(x, 0, len), Power(y, o, len), Inner(x, y, o, len))
  {
    hide *;
    SquaredParts(x, y, o, s, len);
    if len > 0 {
      SquaredSpread(x, y, o, s, len - 1);
      AddSquare(At(x, len - 1), At(y, o + len - 1), s, Power(x, 0, len - 1), Power(y, o, len - 1), Inner(x, y, o, len - 1));
    } else {
      NoSpread(s);
    }
  }

  lemma NoSpread(s: real)
    ensures Spread(s, 0.0, 0.0, 0.0) == 0.0
  {
  }

  lemma SquaredParts(x: seq<real>, y: seq<real>, o: int, s: real, len: nat)
    ensures len == 0 ==> Squared(x, y, o, s, len) == Power(x, 0, len) == Power(y, o, len) == Inner(x, y, o, len) == 0.0
    ensures len > 0 ==> var a, b := At(x, len - 1), At(y, o + len - 1);
      && Squared(x, y, o, s, len) == Squared(x, y, o, s, len - 1) + Apart(a, b, s)
      && Power(x, 0, len) == Power(x, 0, len - 1) + RealTimes(a, a) && Power(y, o, len) == Power(y, o, len - 1) + RealTimes(b, b)
      && Inner(x, y, o, len) == Inner(x, y, o, len - 1) + RealTimes(a, b)
  {
    hide At;
  }

  lemma AddSquare(a: real, b: real, s: real, p: real, q: real, t: real)
    requires RealTimes(s, s) == 1.0
    ensures Spread(s, p, q, t) + Apart(a, b, s) == Spread(s, p + RealTimes(a, a), q + RealTimes(b, b), t + RealTimes(a, b))
  {
    SquareExpands(a, b, s, t);
  }

  lemma SquareExpands(a: real, b: real, s: real, t: real)
    requires s * s == 1.0
    ensures (a - s * b) * (a - s * b) == a * a + b * b - 2.0 * (s * (a * b))
    ensures s * (t + a * b) == s * t + s * (a * b)
  {
    assert (s * b) * (s * b) == (s * s) * (b * b);
    assert a * (s * b) == s * (a * b);
  }

  /** Twice the rank, plus the energy of x, is the squared distance. */
  lemma RankIsDistance(x: seq<real>, cb: seq<real>, len: nat, E: seq<real>, i: int)
    requires At(E, i) == Energy(cb, len, i)
    ensures SquaredDistance(x, cb, len, i, 1.0) == Norm(x, len) + 2.0 * Rank(x, cb, len, E, i)
  {
    SquaredExpands(x, cb, i * len, 1.0, len);
    hide Squared, Power, Inner;
  }

  /** The sign vq_nbest_sign gives a row is the nearer one. */
  lemma SignRankIsDistance(x: seq<real>, cb: seq<real>, len: nat, E: seq<real>, i: int)
    requires At(E, i) == Energy(cb, len, i)
    ensures var s := if Dot(x, cb, len, i) > 0.0 then 1.0 else -1.0;
      && SquaredDistance(x, cb, len, i, s) == Norm(x, len) + 2.0 * SignRank(x, cb, len, E, i)
      && SquaredDistance(x, cb, len, i, s) <= SquaredDistance(x, cb, len, i, -s)
  {
    SquaredExpands(x, cb, i * len, 1.0, len);
    SquaredExpands(x, cb, i * len, -1.0, len);
    hide Squared, Power, Inner;
  }

  // ------------------------------------------------------- the N best so far

  /** Ordered by rank, then by index. */
  predicate Before(d: int -> real, a: int, b: int) {
    d(a) < d(b) || (d(a) == d(b) && a < b)
  }

  function Min(a: int, b: int): int {
    if a < b then a else b
  }

  /** idx lists, in order, the best of the first i rows, as many as fit. */
  ghost predicate BestOf(d: int -> real, i: nat, N: nat, idx: seq<int>) {
    && |idx| == Min(N, i)
    && (forall k :: 0 <= k < |idx| ==> 0 <= idx[k] < i)
    && (forall a, b :: 0 <= a < b < |idx| ==> Before(d, idx[a], idx[b]))
    && (forall c :: 0 <= c < i && c !in idx ==> |idx| == N && forall k :: 0 <= k < N ==> Before(d, idx[k], c))
  }

  /** The place the insertion loop finds for a newcomer. */
  ghost predicate PlaceFor(d: int -> real, v: real, idx: seq<int>, N: nat, k: int) {
    && 0 <= k <= |idx| && k < N
    && (k > 0 ==> d(idx[k - 1]) <= v)
    && (forall m :: k <= m < |idx| && m < N - 1 ==> v < d(idx[m]))
    && (k < |idx| ==> v < d(idx[|idx| - 1]))
  }

  function Inserted(idx: seq<int>, k: int, v: int, N: nat): seq<int>
    requires 0 <= k <= |idx|
  {
    var s := idx[..k] + [v] + idx[k..];
    if |s| > N then s[..N] else s
  }

  lemma InsertedAt(idx: seq<int>, k: int, v: int, N: nat)
    requires 0 <= k <= |idx| <= N && k < N
    ensures var s := Inserted(idx, k, v, N);
      && |s| == Min(N, |idx| + 1)
      && forall a {:trigger s[a]} :: 0 <= a < |s| ==> s[a] == if a < k then idx[a] else if a == k then v else idx[a - 1]
  {
  }

  lemma InsertKeepsBest(d: int -> real, i: nat, N: nat, idx: seq<int>, k: int)
    requires N > 0 && BestOf(d, i, N, idx) && PlaceFor(d, d(i), idx, N, k)
    ensures BestOf(d, i + 1, N, Inserted(idx, k, i, N))
  {
    var s := Inserted(idx, k, i, N);
    InsertedAt(idx, k, i, N);
    BelowPlace(d, i, N, idx, k);
    hide Inserted, PlaceFor;
    forall a, b | 0 <= a < b < |s|
      ensures Before(d, s[a], s[b])
    {
    }
    forall c | 0 <= c < i + 1 && c !in s
      ensures |s| == N && forall m :: 0 <= m < N ==> Before(d, s[m], c)
    {
      OutsideInserted(d, i, N, idx, k, s, c);
    }
  }

  lemma OutsideInserted(d: int -> real, i: nat, N: nat, idx: seq<int>, k: int, s: seq<int>, c: int)
    requires N > 0 && BestOf(d, i, N, idx) && 0 <= k <= |idx| && k < N && 0 <= c < i + 1 && c !in s
    requires |s| == Min(N, |idx| + 1)
    requires forall a {:trigger s[a]} :: 0 <= a < |s| ==> s[a] == if a < k then idx[a] else if a == k then i else idx[a - 1]
    requires forall m :: k <= m < |idx| ==> Before(d, i, idx[m])
    ensures |s| == N && forall m :: 0 <= m < N ==> Before(d, s[m], c)
  {
    assert s[k] == i;
    forall m | 0 <= m < |idx| && (m < k || m + 1 < |s|)
      ensures idx[m] != c
    {
      assert idx[m] == if m < k then s[m] else s[m + 1];
    }
    if c in idx {
      var m :| 0 <= m < |idx| && idx[m] == c;
      assert m == |idx| - 1 && |idx| == N;
    }
  }

  lemma BelowPlace(d: int -> real, i: nat, N: nat, idx: seq<int>, k: int)
    requires N > 0 && BestOf(d, i, N, idx) && PlaceFor(d, d(i), idx, N, k)
    ensures forall m :: 0 <= m < k ==> Before(d, idx[m], i)
    ensures forall m :: k <= m < |idx| ==> Before(d, i, idx[m])
  {
    forall m | 0 <= m < k
      ensures Before(d, idx[m], i)
    {
      if m < k - 1 {
        assert Before(d, idx[m], idx[k - 1]);
      }
    }
  }

  lemma SkipKeepsBest(d: int -> real, i: nat, N: nat, idx: seq<int>)
    requires N > 0 && BestOf(d, i, N, idx) && |idx| == N && d(idx[N - 1]) <= d(i)
    ensures BestOf(d, i + 1, N, idx)
  {
    forall m | 0 <= m < N
      ensures Before(d, idx[m], i)
    {
      if m < N - 1 {
        assert Before(d, idx[m], idx[N - 1]);
      }
    }
  }

  /** The arrays hold the list idx: distances, and indices with sign bits. */
  ghost predicate Lists(nbest: seq<int>, best: seq<real>, idx: seq<int>, d: int -> real, labels: int -> int) {
    && |idx| <= |nbest| && |idx| <= |best|
    && forall k :: 0 <= k < |idx| ==> nbest[k] == labels(idx[k]) && best[k] == d(idx[k])
  }

  /** Shifts worse entries up and stores the newcomer. */
  method ShiftIn(nbest: array<int>, best_dist: array<real>, N: nat, used: nat, dist: real, entry: int) returns (k: nat)
    requires 1 <= N <= nbest.Length && N <= best_dist.Length
    modifies nbest, best_dist
    ensures k < N && nbest[k] == entry && best_dist[k] == dist
    ensures forall m :: 0 <= m < k ==> nbest[m] == old(nbest[m]) && best_dist[m] == old(best_dist[m])
    ensures forall m :: k < m < N ==> nbest[m] == old(nbest[m - 1]) && best_dist[m] == old(best_dist[m - 1])
    ensures k >= 1 ==> k <= used && old(best_dist[k - 1]) <= dist
    ensures forall m :: k <= m < N - 1 && m < used ==> dist < old(best_dist[m])
    ensures nbest[N..] == old(nbest[N..]) && best_dist[N..] == old(best_dist[N..])
  {
    k := N - 1;
    while k >= 1 && (k > used || dist < best_dist[k - 1])
      invariant 0 <= k < N
      invariant forall m :: 0 <= m <= k ==> nbest[m] == old(nbest[m]) && best_dist[m] == old(best_dist[m])
      invariant forall m :: k < m < N ==> nbest[m] == old(nbest[m - 1]) && best_dist[m] == old(best_dist[m - 1])
      invariant forall m :: k <= m < N - 1 && m < used ==> dist < old(best_dist[m])
      invariant forall m :: N <= m < nbest.Length ==> nbest[m] == old(nbest[m])
      invariant forall m :: N <= m < best_dist.Length ==> best_dist[m] == old(best_dist[m])
    {
      best_dist[k] := best_dist[k - 1];
      nbest[k] := nbest[k - 1];
      k := k - 1;
    }
    best_dist[k] := dist;
    nbest[k] := entry;
  }

  /** The newcomer goes where the shift left room. */
  lemma ShiftedIn(d: int -> real, labels: int -> int, i: nat, N: nat, used: nat, idx: seq<int>, k: nat,
                  nb: seq<int>, bd: seq<real>, nb': seq<int>, bd': seq<real>)
    requires N > 0 && BestOf(d, i, N, idx) && Lists(nb, bd, idx, d, labels)
    requires |nb| == |bd| == |nb'| == |bd'| == N && k < N
    requires if i < N then used == i else used >= N && d(i) < bd[N - 1]
    requires nb'[k] == labels(i) && bd'[k] == d(i)
    requires forall m :: 0 <= m < k ==> nb'[m] == nb[m] && bd'[m] == bd[m]
    requires forall m :: k < m < N ==> nb'[m] == nb[m - 1] && bd'[m] == bd[m - 1]
    requires k >= 1 ==> k <= used && bd[k - 1] <= d(i)
    requires forall m :: k <= m < N - 1 && m < used ==> d(i) < bd[m]
    ensures k <= |idx| && BestOf(d, i + 1, N, Inserted(idx, k, i, N))
    ensures Lists(nb', bd', Inserted(idx, k, i, N), d, labels)
  {
    assert PlaceFor(d, d(i), idx, N, k);
    InsertKeepsBest(d, i, N, idx, k);
    InsertedAt(idx, k, i, N);
    hide Inserted, BestOf, PlaceFor;
  }

  lemma EntryInBook(i: int, entries: int, len: int, j: int, size: int)
    requires 0 <= i < entries && 0 <= j < len && entries * len <= size
    ensures 0 <= i * len + j < size
  {
    RowBound(i, entries, len);
  }

  function Ranks(x: seq<real>, cb: seq<real>, len: nat, E: seq<real>): int -> real {
    i => Rank(x, cb, len, E, i)
  }

  function SignRanks(x: seq<real>, cb: seq<real>, len: nat, E: seq<real>): int -> real {
    i => SignRank(x, cb, len, E, i)
  }

  /** The index vq_nbest_sign stores for row i: its sign is in the top bit. */
  function Signed(x: seq<real>, cb: seq<real>, len: nat, entries: nat, i: int): int {
    if Dot(x, cb, len, i) > 0.0 then i else i + entries
  }

  function SignLabels(x: seq<real>, cb: seq<real>, len: nat, entries: nat): int -> int {
    i => Signed(x, cb, len, entries, i)
  }

  function Plain(): int -> int {
    i => i
  }

  /** Finds the N best entries of a codebook, nearest first, the lower index
      first among equals. */
  method VqNbest(inp: seq<real>, codebook: seq<real>, len: nat, entries: nat, E: seq<real>, N: nat,
                 nbest: array<int>, best_dist: array<real>) returns (ghost idx: seq<int>)
    requires |inp| >= len && entries * len <= |codebook| && entries <= |E|
    requires 1 <= N <= nbest.Length && N <= best_dist.Length
    modifies nbest, best_dist
    ensures var d := Ranks(inp, codebook, len, E);
      BestOf(d, entries, N, idx) && Lists(nbest[..N], best_dist[..N], idx, d, Plain())
    ensures nbest[N..] == old(nbest[N..]) && best_dist[N..] == old(best_dist[N..])
  {
    hide *;
    ghost var d, labels := Ranks(inp, codebook, len, E), Plain();
    var used, c := 0, 0;
    idx := [];
    BestOfNone(d, N, nbest[..N], best_dist[..N], labels);
    for i := 0 to entries
      invariant c == i * len
      invariant if i < N then used == i else used >= N
      invariant BestOf(d, i, N, idx) && Lists(nbest[..N], best_dist[..N], idx, d, labels)
      invariant nbest[N..] == old(nbest[N..]) && best_dist[N..] == old(best_dist[N..])
    {
      var dist := DotRow(inp, codebook, len, entries, i, c);
      c := c + len;
      assert c == (i + 1) * len;
      dist := 0.5 * E[i] - dist;
      RankIs(inp, codebook, len, E, i);
      LastOf(d, i, N, idx, nbest[..N], best_dist[..N], labels);
      if i < N || dist < best_dist[N - 1] {
        ghost var nb, bd := nbest[..N], best_dist[..N];
        ghost var k := ShiftIn(nbest, best_dist, N, used, dist, i);
        ShiftedIn(d, labels, i, N, used, idx, k, nb, bd, nbest[..N], best_dist[..N]);
        idx := Inserted(idx, k, i, N);
        used := used + 1;
      } else {
        SkipKeepsBest(d, i, N, idx);
      }
    }
  }

  lemma RankIs(x: seq<real>, cb: seq<real>, len: nat, E: seq<real>, i: int)
    requires 0 <= i < |E|
    ensures Ranks(x, cb, len, E)(i) == 0.5 * E[i] - Dot(x, cb, len, i) && Plain()(i) == i
  {
  }

  lemma BestOfNone(d: int -> real, N: nat, nbest: seq<int>, best: seq<real>, labels: int -> int)
    ensures BestOf(d, 0, N, []) && Lists(nbest, best, [], d, labels)
  {
  }

  lemma LastOf(d: int -> real, i: nat, N: nat, idx: seq<int>, nbest: seq<int>, best: seq<real>, labels: int -> int)
    requires BestOf(d, i, N, idx) && Lists(nbest, best, idx, d, labels) && N > 0
    ensures i >= N ==> |idx| == N && N <= |best| && best[N - 1] == d(idx[N - 1])
  {
  }

  method DotRow(inp: seq<real>, codebook: seq<real>, len: nat, entries: nat, i: nat, c: nat) returns (dist: real)
    requires |inp| >= len && i < entries && entries * len <= |codebook| && c == i * len
    ensures dist == Dot(inp, codebook, len, i)
  {
    dist := 0.0;
    for j := 0 to len
      invariant dist == Inner(inp, codebook, c, j)
    {
      EntryInBook(i, entries, len, j, |codebook|);
      dist := dist + inp[j] * codebook[c + j];
    }
  }

  /** The same search over codewords with the better of their two signs. */
  method VqNbestSign(inp: seq<real>, codebook: seq<real>, len: nat, entries: nat, E: seq<real>, N: nat,
                     nbest: array<int>, best_dist: array<real>) returns (ghost idx: seq<int>)
    requires |inp| >= len && entries * len <= |codebook| && entries <= |E|
    requires 1 <= N <= nbest.Length && N <= best_dist.Length
    modifies nbest, best_dist
    ensures var d := SignRanks(inp, codebook, len, E);
      BestOf(d, entries, N, idx)
      && Lists(nbest[..N], best_dist[..N], idx, d, SignLabels(inp, codebook, len, entries))
    ensures nbest[N..] == old(nbest[N..]) && best_dist[N..] == old(best_dist[N..])
  {
    hide *;
    ghost var d, labels := SignRanks(inp, codebook, len, E), SignLabels(inp, codebook, len, entries);
    var used, c := 0, 0;
    idx := [];
    BestOfNone(d, N, nbest[..N], best_dist[..N], labels);
    for i := 0 to entries
      invariant c == i * len
      invariant if i < N then used == i else used >= N
      invariant BestOf(d, i, N, idx) && Lists(nbest[..N], best_dist[..N], idx, d, labels)
      invariant nbest[N..] == old(nbest[N..]) && best_dist[N..] == old(best_dist[N..])
    {
      var dist := DotRow(inp, codebook, len, entries, i, c);
      c := c + len;
      assert c == (i + 1) * len;
      var sign;
      SignIs(inp, codebook, len, entries, E, i);
      if dist > 0.0 {
        sign := 0;
        dist := -dist;
      } else {
        sign := 1;
      }
      dist := dist + 0.5 * E[i];
      var entry := if sign == 0 then i else i + entries;
      assert dist == d(i) && entry == labels(i);
      LastOf(d, i, N, idx, nbest[..N], best_dist[..N], labels);
      if i < N || dist < best_dist[N - 1] {
        ghost var nb, bd := nbest[..N], best_dist[..N];
        ghost var k := ShiftIn(nbest, best_dist, N, used, dist, entry);
        ShiftedIn(d, labels, i, N, used, idx, k, nb, bd, nbest[..N], best_dist[..N]);
        idx := Inserted(idx, k, i, N);
        used := used + 1;
      } else {
        SkipKeepsBest(d, i, N, idx);
      }
    }
  }

  lemma SignIs(x: seq<real>, cb: seq<real>, len: nat, entries: nat, E: seq<real>, i: int)
    requires 0 <= i < |E|
    ensures var d := Dot(x, cb, len, i);
      && SignRanks(x, cb, len, E)(i) == 0.5 * E[i] - (if d > 0.0 then d else -d)
      && SignLabels(x, cb, len, entries)(i) == if d > 0.0 then i else i + entries
  {
  }

  // --------------------------------------------------- nearest in real distance

  /** E holds the energies of the rows. */
  ghost predicate RowEnergies(cb: seq<real>, len: nat, entries: nat, E: seq<real>) {
    forall i :: 0 <= i < entries ==> At(E, i) == Energy(cb, len, i)
  }

  /** The squared distance of x from a row, and from the nearer of the row and
      its negative. */
  function RowDistances(x: seq<real>, cb: seq<real>, len: nat): int -> real {
    i => SquaredDistance(x, cb, len, i, 1.0)
  }

  function SignRowDistances(x: seq<real>, cb: seq<real>, len: nat): int -> real {
    i => SmallerOf(SquaredDistance(x, cb, len, i, 1.0), SquaredDistance(x, cb, len, i, -1.0))
  }

  function SmallerOf(a: real, b: real): real {
    if a <= b then a else b
  }

  /** Two rankings that differ by an offset and a factor of two pick the same. */
  lemma SameOrder(d: int -> real, e: int -> real, offset: real, i: nat, N: nat, idx: seq<int>)
    requires forall k :: 0 <= k < i ==> e(k) == offset + 2.0 * d(k)
    requires BestOf(d, i, N, idx)
    ensures BestOf(e, i, N, idx)
  {
    forall a, b | 0 <= a < i && 0 <= b < i
      ensures Before(d, a, b) == Before(e, a, b)
    {
    }
  }

  /** The list vq_nbest builds is of the codewords nearest to x, nearest first,
      the lower index first among equals. */
  lemma NearestListed(x: seq<real>, cb: seq<real>, len: nat, entries: nat, E: seq<real>, N: nat, idx: seq<int>)
    requires RowEnergies(cb, len, entries, E) && BestOf(Ranks(x, cb, len, E), entries, N, idx)
    ensures BestOf(RowDistances(x, cb, len), entries, N, idx)
  {
    var d, e := Ranks(x, cb, len, E), RowDistances(x, cb, len);
    hide Rank, SquaredDistance, Norm, BestOf;
    forall k | 0 <= k < entries
      ensures e(k) == Norm(x, len) + 2.0 * d(k)
    {
      RankIsDistance(x, cb, len, E, k);
    }
    SameOrder(d, e, Norm(x, len), entries, N, idx);
  }

  /** The same of the signed search, over codewords and their negatives. */
  lemma NearestSignListed(x: seq<real>, cb: seq<real>, len: nat, entries: nat, E: seq<real>, N: nat, idx: seq<int>)
    requires RowEnergies(cb, len, entries, E) && BestOf(SignRanks(x, cb, len, E), entries, N, idx)
    ensures BestOf(SignRowDistances(x, cb, len), entries, N, idx)
  {
    var d, e := SignRanks(x, cb, len, E), SignRowDistances(x, cb, len);
    hide SignRank, SquaredDistance, Norm, BestOf;
    forall k | 0 <= k < entries
      ensures e(k) == Norm(x, len) + 2.0 * d(k)
    {
      SignRankIsDistance(x, cb, len, E, k);
    }
    SameOrder(d, e, Norm(x, len), entries, N, idx);
  }

  /** Scalar quantisation: the first boundary not below the input, the last
      entry if there is none. */
  method ScalQuant(inp: real, boundary: array<real>, entries: nat) returns (i: nat)
    requires 1 <= entries <= boundary.Length + 1
    ensures i < entries
    ensures forall k :: 0 <= k < i ==> inp > boundary[k]
    ensures i < entries - 1 ==> inp <= boundary[i]
  {
    i := 0;
    while i < entries - 1 && inp > boundary[i]
      invariant i < entries
      invariant forall k :: 0 <= k < i ==> inp > boundary[k]
    {
      i := i + 1;
    }
  }
}
