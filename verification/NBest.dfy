/** The list of the cheapest candidates in split_cb_search_shape_sign: a
    candidate is a codeword v appended to the path in slot j. */
module NBest {

  /** VERY_LARGE32: the distance of a slot that is not in use. */
  const VERY_LARGE := 1000000000000000.0

  type Costs = (int, int) -> real

  datatype List = List(dist: seq<real>, ind: seq<int>, from: seq<int>)

  predicate SlotHolds(c: Costs, d: real, j: int, v: int) {
    if d < VERY_LARGE then d == c(j, v) else d == VERY_LARGE && j == 0 && v == 0
  }

  predicate Sized(N: nat, l: List) {
    N >= 1 && |l.dist| == N && |l.ind| == N && |l.from| == N
  }

  ghost predicate Sorted(N: nat, l: List)
    requires Sized(N, l)
  {
    forall a, b :: 0 <= a < b < N ==> l.dist[a] <= l.dist[b]
  }

  ghost predicate Priced(c: Costs, N: nat, l: List)
    requires Sized(N, l)
  {
    forall a :: 0 <= a < N ==> SlotHolds(c, l.dist[a], l.from[a], l.ind[a])
  }

  ghost predicate Distinct(N: nat, l: List)
    requires Sized(N, l)
  {
    forall a, b :: 0 <= a < b < N && l.dist[b] < VERY_LARGE ==> l.from[a] != l.from[b] || l.ind[a] != l.ind[b]
  }

  ghost predicate Kept(c: Costs, N: nat, l: List) {
    Sized(N, l) && Sorted(N, l) && Priced(c, N, l) && Distinct(N, l)
  }

  predicate Holds(l: List, N: nat, a: int, j: int, v: int)
    requires Sized(N, l) && 0 <= a < N
  {
    l.dist[a] < VERY_LARGE && l.from[a] == j && l.ind[a] == v
  }

  ghost predicate Listed(N: nat, l: List, j: int, v: int)
    requires Sized(N, l)
  {
    exists a :: 0 <= a < N && Holds(l, N, a, j, v)
  }

  /** On the list, or no cheaper than anything on it. */
  ghost predicate Considered(c: Costs, N: nat, l: List, j: int, v: int)
    requires Sized(N, l)
  {
    Listed(N, l, j, v) || l.dist[N - 1] <= c(j, v)
  }

  function Empty(N: nat): List {
    List(seq(N, _ => VERY_LARGE), seq(N, _ => 0), seq(N, _ => 0))
  }

  lemma EmptyKept(c: Costs, N: nat)
    requires N >= 1
    ensures Kept(c, N, Empty(N))
    ensures forall j, v :: !Listed(N, Empty(N), j, v)
  {
  }

  function Insert(N: nat, l: List, m: nat, d: real, j: int, v: int): List
    requires Sized(N, l) && m < N
  {
    List(Shifted(l.dist, m, d), Shifted(l.ind, m, v), Shifted(l.from, m, j))
  }

  /** x put in at m, the last element dropped. */
  function Shifted<T>(s: seq<T>, m: nat, x: T): (t: seq<T>)
    requires m < |s|
    ensures |t| == |s|
  {
    s[..m] + [x] + s[m..|s| - 1]
  }

  lemma InsertAt(N: nat, l: List, m: nat, d: real, j: int, v: int)
    requires Sized(N, l) && m < N
    ensures var l' := Insert(N, l, m, d, j, v);
      && Sized(N, l') && l'.dist[m] == d && l'.ind[m] == v && l'.from[m] == j
      && (forall a :: 0 <= a < m ==> l'.dist[a] == l.dist[a] && l'.ind[a] == l.ind[a] && l'.from[a] == l.from[a])
      && (forall a :: m <= a < N - 1 ==>
            l'.dist[a + 1] == l.dist[a] && l'.ind[a + 1] == l.ind[a] && l'.from[a + 1] == l.from[a])
  {
  }

  /** m is where the loop over the list stops for cost d. */
  ghost predicate Place(N: nat, l: List, m: nat, d: real)
    requires Sized(N, l)
  {
    m < N && d < l.dist[m] && (m > 0 ==> l.dist[m - 1] <= d)
  }

  lemma InsertKeeps(c: Costs, N: nat, l: List, m: nat, j: int, v: int)
    requires Kept(c, N, l) && Place(N, l, m, c(j, v)) && !Listed(N, l, j, v)
    ensures var l' := Insert(N, l, m, c(j, v), j, v);
      Kept(c, N, l') && Listed(N, l', j, v)
  {
    var l' := Insert(N, l, m, c(j, v), j, v);
    InsertSorted(c, N, l, m, j, v);
    InsertPriced(c, N, l, m, j, v);
    InsertDistinct(c, N, l, m, j, v);
    BelowLarge(c, N, l, m);
    hide Sorted, Priced, Distinct;
    assert Holds(l', N, m, j, v);
  }

  lemma InsertSorted(c: Costs, N: nat, l: List, m: nat, j: int, v: int)
    requires Sized(N, l) && Sorted(N, l) && Place(N, l, m, c(j, v))
    ensures Sorted(N, Insert(N, l, m, c(j, v), j, v))
  {
    var l' := Insert(N, l, m, c(j, v), j, v);
    forall a, b | 0 <= a < b < N
      ensures l'.dist[a] <= l'.dist[b]
    {
      if a < m && m > 0 && a < m - 1 {
        assert l.dist[a] <= l.dist[m - 1];
      }
      if b > m && m < b - 1 {
        assert l.dist[m] <= l.dist[b - 1];
      }
    }
  }

  lemma InsertPriced(c: Costs, N: nat, l: List, m: nat, j: int, v: int)
    requires Kept(c, N, l) && Place(N, l, m, c(j, v))
    ensures Priced(c, N, Insert(N, l, m, c(j, v), j, v))
  {
    var l' := Insert(N, l, m, c(j, v), j, v);
    BelowLarge(c, N, l, m);
    InsertAt(N, l, m, c(j, v), j, v);
    hide Insert, Sorted, Distinct;
    forall a | 0 <= a < N
      ensures SlotHolds(c, l'.dist[a], l'.from[a], l'.ind[a])
    {
      if a < m {
        assert SlotHolds(c, l.dist[a], l.from[a], l.ind[a]);
      } else if a > m {
        assert SlotHolds(c, l.dist[a - 1], l.from[a - 1], l.ind[a - 1]);
      }
    }
  }

  lemma BelowLarge(c: Costs, N: nat, l: List, m: nat)
    requires Kept(c, N, l) && m < N
    ensures l.dist[m] <= VERY_LARGE
  {
    assert SlotHolds(c, l.dist[m], l.from[m], l.ind[m]);
  }

  lemma InsertDistinct(c: Costs, N: nat, l: List, m: nat, j: int, v: int)
    requires Kept(c, N, l) && Place(N, l, m, c(j, v)) && !Listed(N, l, j, v)
    ensures Distinct(N, Insert(N, l, m, c(j, v), j, v))
  {
    var l' := Insert(N, l, m, c(j, v), j, v);
    InsertAt(N, l, m, c(j, v), j, v);
    hide *;
    forall a, b | 0 <= a < b < N && l'.dist[b] < VERY_LARGE
      ensures l'.from[a] != l'.from[b] || l'.ind[a] != l'.ind[b]
    {
      PairDiffers(c, N, l, m, j, v, a, b);
    }
    DistinctIs(N, l');
  }

  lemma PairDiffers(c: Costs, N: nat, l: List, m: nat, j: int, v: int, a: nat, b: nat)
    requires Kept(c, N, l) && Place(N, l, m, c(j, v)) && !Listed(N, l, j, v)
    requires 0 <= a < b < N && Insert(N, l, m, c(j, v), j, v).dist[b] < VERY_LARGE
    ensures var l' := Insert(N, l, m, c(j, v), j, v); l'.from[a] != l'.from[b] || l'.ind[a] != l'.ind[b]
  {
    hide Priced, SlotHolds, Distinct, Sorted, Listed;
    var a', b' := if a < m then a else a - 1, if b < m then b else b - 1;
    if a == m {
      NotHeld(N, l, b', j, v);
    } else if b == m {
      FilledBefore(c, N, l, a', m);
      NotHeld(N, l, a', j, v);
    } else {
      OldPair(N, l, a', b');
    }
  }

  lemma NotHeld(N: nat, l: List, a: int, j: int, v: int)
    requires Sized(N, l) && 0 <= a < N && !Listed(N, l, j, v)
    ensures !Holds(l, N, a, j, v)
  {
  }

  lemma OldPair(N: nat, l: List, a: int, b: int)
    requires Sized(N, l) && 0 <= a < b < N && l.dist[b] < VERY_LARGE && Distinct(N, l)
    ensures l.from[a] != l.from[b] || l.ind[a] != l.ind[b]
  {
  }

  lemma DistinctIs(N: nat, l: List)
    requires Sized(N, l)
    requires forall a, b :: 0 <= a < b < N && l.dist[b] < VERY_LARGE ==> l.from[a] != l.from[b] || l.ind[a] != l.ind[b]
    ensures Distinct(N, l)
  {
  }

  /** A slot before one worth replacing is in use if it is no dearer. */
  lemma FilledBefore(c: Costs, N: nat, l: List, a: nat, m: nat)
    requires Kept(c, N, l) && a < m < N && l.dist[m - 1] < l.dist[m]
    ensures l.dist[a] < VERY_LARGE
  {
    BelowLarge(c, N, l, m);
    if a < m - 1 {
      assert l.dist[a] <= l.dist[m - 1];
    }
  }

  /** Nothing that was considered is forgotten, and the list only improves. */
  lemma InsertForgetsNothing(c: Costs, N: nat, l: List, m: nat, j: int, v: int, j': int, v': int)
    requires Kept(c, N, l) && Place(N, l, m, c(j, v)) && Considered(c, N, l, j', v')
    ensures Considered(c, N, Insert(N, l, m, c(j, v), j, v), j', v')
  {
    var l' := Insert(N, l, m, c(j, v), j, v);
    InsertImproves(c, N, l, m, j, v);
    InsertAt(N, l, m, c(j, v), j, v);
    hide Insert, Sorted, Distinct;
    if Listed(N, l, j', v') {
      var a :| 0 <= a < N && Holds(l, N, a, j', v');
      if a < m {
        assert Holds(l', N, a, j', v');
      } else if a < N - 1 {
        assert Holds(l', N, a + 1, j', v');
      } else {
        assert SlotHolds(c, l.dist[a], l.from[a], l.ind[a]);
      }
    }
  }

  lemma InsertImproves(c: Costs, N: nat, l: List, m: nat, j: int, v: int)
    requires Kept(c, N, l) && Place(N, l, m, c(j, v))
    ensures var l' := Insert(N, l, m, c(j, v), j, v);
      forall a :: 0 <= a < N ==> l'.dist[a] <= l.dist[a]
  {
  }

  /** If k - 1 entries were as cheap as the newcomer, now k are. */
  lemma InsertCounts(c: Costs, N: nat, l: List, m: nat, j: int, v: int, k: nat)
    requires Kept(c, N, l) && Place(N, l, m, c(j, v)) && 1 <= k <= N && (k >= 2 ==> l.dist[k - 2] <= c(j, v))
    ensures Insert(N, l, m, c(j, v), j, v).dist[k - 1] <= c(j, v)
  {
    if k - 1 < m - 1 {
      assert l.dist[k - 1] <= l.dist[m - 1];
    }
  }

  lemma ListedOnlyNew(c: Costs, N: nat, l: List, m: nat, j: int, v: int, j': int, v': int)
    requires Kept(c, N, l) && Place(N, l, m, c(j, v)) && Listed(N, Insert(N, l, m, c(j, v), j, v), j', v')
    ensures Listed(N, l, j', v') || (j' == j && v' == v)
  {
    var l' := Insert(N, l, m, c(j, v), j, v);
    InsertAt(N, l, m, c(j, v), j, v);
    hide Insert, Sorted, Distinct, Priced, Place;
    var a :| 0 <= a < N && Holds(l', N, a, j', v');
    if a < m {
      assert Holds(l, N, a, j', v');
    } else if a > m {
      assert Holds(l, N, a - 1, j', v');
    }
  }

  function Read(N: nat, dist: array<real>, ind: array<int>, from: array<int>): List
    requires N <= dist.Length && N <= ind.Length && N <= from.Length
    reads dist, ind, from
  {
    List(dist[..N], ind[..N], from[..N])
  }

  /** The insertion loops: the newcomer goes before the first dearer entry, and
      the last entry is dropped. */
  method Offer(err: real, v: int, j: int, N: nat, ndist: array<real>, best_nind: array<int>, best_ntarget: array<int>)
    returns (ghost m: nat)
    requires 1 <= N && ndist.Length == N && best_nind.Length == N && best_ntarget.Length == N && best_nind != best_ntarget
    requires Sorted(N, Read(N, ndist, best_nind, best_ntarget))
    modifies ndist, best_nind, best_ntarget
    ensures var l := old(Read(N, ndist, best_nind, best_ntarget));
      if err < l.dist[N - 1] then Place(N, l, m, err) && Read(N, ndist, best_nind, best_ntarget) == Insert(N, l, m, err, j, v)
      else Read(N, ndist, best_nind, best_ntarget) == l
  {
    hide Sorted, Shifted;
    m := N;
    assert ndist[..N] == ndist[..] && best_nind[..N] == best_nind[..] && best_ntarget[..N] == best_ntarget[..];
    if err < ndist[N - 1] {
      var k := 0;
      while err >= ndist[k]
        invariant k < N && (k > 0 ==> ndist[k - 1] <= err)
        decreases N - k
      {
        k := k + 1;
      }
      m := k;
      ShiftUp(ndist, k, err);
      ShiftUp(best_nind, k, v);
      ShiftUp(best_ntarget, k, j);
      assert ndist[..N] == ndist[..] && best_nind[..N] == best_nind[..] && best_ntarget[..N] == best_ntarget[..];
    }
  }

  /** Moves entries m and up by one, dropping the last, and stores x at m. */
  method ShiftUp<T>(a: array<T>, m: nat, x: T)
    requires m < a.Length
    modifies a
    ensures a[..] == Shifted(old(a[..]), m, x)
  {
    ghost var s := a[..];
    var n := a.Length - 1;
    while n > m
      invariant m <= n < a.Length
      invariant a[..n + 1] == s[..n + 1] && a[n + 1..] == s[n..a.Length - 1]
    {
      assert a[..n + 1][n - 1] == s[n - 1];
      a[n] := a[n - 1];
      n := n - 1;
    }
    a[m] := x;
  }
}
