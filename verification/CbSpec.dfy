/** What a sequence of codeword indices means, and why the shortcuts of
    cb_search.c measure it exactly. */
module CbSpec {
  import opened IntArith
  import opened RealSums
  import opened FilterSpec
  import opened Vq

  /** One search: the target, the impulse response r, and a codebook of K rows
      of L values. */
  datatype Setup = Setup(target: seq<real>, r: seq<real>, cb: seq<int>, L: nat, K: nat, sign: bool)

  /** Index v stands for row v, or for row v - K with the sign flipped. */
  function RowOf(s: Setup, v: int): int {
    if v < s.K then v else v - s.K
  }

  function SignOf(s: Setup, v: int): real {
    if v < s.K then 1.0 else -1.0
  }

  function Shape(s: Setup, row: int, m: int): real {
    var k := row * s.L + m;
    if 0 <= k < |s.cb| then s.cb[k] as real else 0.0
  }

  /** Value m of codeword v. */
  function Word(s: Setup, v: int, m: int): real {
    SignOf(s, v) * 0.03125 * Shape(s, RowOf(s, v), m)
  }

  /** The excitation of a path, one codeword after another. */
  function Exc(s: Setup, path: seq<int>): (e: seq<real>)
    ensures |e| == |path| * s.L
  {
    if path == [] then []
    else
      var n := |path| - 1;
      Exc(s, path[..n]) + seq(s.L, m => Word(s, path[n], m))
  }

  /** Value m of subvector i of the excitation is a 32nd of the codebook value:
      of row v for an index v below K, of row v - K with the sign flipped from K
      on. */
  lemma {:induction false} ExcMeans(s: Setup, path: seq<int>, i: nat, m: nat)
    requires i < |path| && m < s.L
    requires 0 <= path[i] < 2 * s.K && |s.cb| == s.K * s.L
    ensures var v := path[i]; var at := (if v < s.K then v else v - s.K) * s.L + m;
      && 0 <= at < |s.cb| && i * s.L + m < |Exc(s, path)|
      && 32.0 * Exc(s, path)[i * s.L + m] == if v < s.K then s.cb[at] as real else -(s.cb[at] as real)
  {
    var n := |path| - 1;
    RowBound(if path[i] < s.K then path[i] else path[i] - s.K, s.K, s.L);
    RowBound(i, |path|, s.L);
    if i < n {
      RowBound(i, n, s.L);
      ExcMeans(s, path[..n], i, m);
    } else {
      assert Exc(s, path)[n * s.L + m] == Word(s, path[n], m);
    }
  }

  /** What codeword v, starting at time o, adds to the filtered excitation. */
  function Added(s: Setup, v: int, o: int): Signal {
    n => Sum(s.L, Terms(s, v, n - o))
  }

  function Terms(s: Setup, v: int, d: int): Signal {
    m => Word(s, v, m) * At(s.r, d - m)
  }

  /** The target less what the path explains, updated codeword by codeword. */
  function Rest(s: Setup, path: seq<int>): Signal {
    if path == [] then Sig(s.target)
    else
      var k := |path| - 1;
      var before := Rest(s, path[..k]);
      n => before(n) - Added(s, path[k], k * s.L)(n)
  }

  /** The squared error of subvector i. */
  function Part(s: Setup, path: seq<int>, i: int): real {
    Sum(s.L, SquareFrom(Rest(s, path), i * s.L))
  }

  function SquareFrom(f: Signal, o: int): Signal {
    m => f(o + m) * f(o + m)
  }

  /** The distance kept for a path: half the squared error of each subvector,
      measured when its codeword was chosen. */
  function Cost(s: Setup, path: seq<int>): real {
    if path == [] then 0.0
    else
      var k := |path| - 1;
      Cost(s, path[..k]) + 0.5 * Part(s, path, k)
  }

  // ----------------------------------------- the updates are convolution

  lemma RestStep(s: Setup, path: seq<int>, v: int, n: int)
    ensures Rest(s, path + [v])(n) == Rest(s, path)(n) - Added(s, v, |path| * s.L)(n)
  {
    assert (path + [v])[..|path|] == path;
  }

  lemma ExcStep(s: Setup, path: seq<int>, v: int)
    ensures Exc(s, path + [v]) == Exc(s, path) + seq(s.L, m => Word(s, v, m))
  {
    assert (path + [v])[..|path|] == path;
  }

  lemma CostStep(s: Setup, path: seq<int>, v: int)
    ensures Cost(s, path + [v]) == Cost(s, path) + 0.5 * Part(s, path + [v], |path|)
  {
    assert (path + [v])[..|path|] == path;
  }

  /** The updated target is the target less the filtered excitation. */
  lemma {:induction false} RestIsResidual(s: Setup, path: seq<int>, n: int)
    ensures Rest(s, path)(n) == At(s.target, n) - Conv(Sig(s.r), Exc(s, path), |path| * s.L)(n)
  {
    hide At, Word;
    var e := Exc(s, path);
    if path == [] {
    } else {
      var k := |path| - 1;
      var front, v := path[..k], path[k];
      assert path == front + [v];
      RestIsResidual(s, front, n);
      RestStep(s, front, v, n);
      ExcStep(s, front, v);
      ConvAppend(s, Exc(s, front), k * s.L, v, e, n);
      LengthStep(k, s.L);
    }
  }

  lemma LengthStep(k: int, L: int)
    ensures (k + 1) * L == k * L + L
  {
  }

  lemma ConvAppend(s: Setup, e: seq<real>, o: nat, v: int, e': seq<real>, n: int)
    requires |e| == o && e' == e + seq(s.L, m => Word(s, v, m))
    ensures Conv(Sig(s.r), e', o + s.L)(n) == Conv(Sig(s.r), e, o)(n) + Added(s, v, o)(n)
  {
    hide *;
    var f, g, h := Products(Sig(s.r), e', n), Products(Sig(s.r), e, n), Terms(s, v, n - o);
    forall m | 0 <= m < s.L
      ensures h(m) == f(o + m)
    {
      AppendedAt(s, e, o, v, e', n, m);
    }
    forall k | 0 <= k < o
      ensures f(k) == g(k)
    {
      assert e'[k] == e[k];
      ProductAt(Sig(s.r), e, e', n, k);
    }
    SumSplit(o, s.L, f, h);
    SumExt(o, f, g);
    ConvIs(Sig(s.r), e', o + s.L, n);
    ConvIs(Sig(s.r), e, o, n);
    AddedIs(s, v, o, n);
  }

  lemma AddedIs(s: Setup, v: int, o: nat, n: int)
    ensures Added(s, v, o)(n) == Sum(s.L, Terms(s, v, n - o))
  {
    hide Terms, Sum;
  }

  lemma ProductAt(r: Signal, e: seq<real>, e': seq<real>, n: int, k: nat)
    requires k < |e| <= |e'| && e'[k] == e[k]
    ensures Products(r, e', n)(k) == Products(r, e, n)(k)
  {
  }

  lemma AppendedAt(s: Setup, e: seq<real>, o: nat, v: int, e': seq<real>, n: int, m: nat)
    requires |e| == o && e' == e + seq(s.L, m => Word(s, v, m)) && m < s.L
    ensures Terms(s, v, n - o)(m) == Products(Sig(s.r), e', n)(o + m)
  {
    hide Word;
    assert e'[o + m] == Word(s, v, m) && n - (o + m) == n - o - m;
  }

  function Products(r: Signal, e: seq<real>, n: int): Signal {
    k => At(e, k) * r(n - k)
  }

  lemma ConvIs(r: Signal, e: seq<real>, m: nat, n: int)
    ensures Conv(r, e, m)(n) == Sum(m, Products(r, e, n))
  {
    SumExt(m, k => At(e, k) * r(n - k), Products(r, e, n));
  }

  // ------------------------------------------------ the kept distance is exact

  /** A codeword changes nothing before its own subvector. */
  lemma AddedEarlier(s: Setup, v: int, o: int, n: int)
    requires n < o
    ensures Added(s, v, o)(n) == 0.0
  {
    hide Word;
    var f := Terms(s, v, n - o);
    forall m | 0 <= m < s.L
      ensures f(m) == 0.0
    {
      assert At(s.r, n - o - m) == 0.0;
    }
    SumZero(s.L, f);
  }

  function Square(f: Signal): Signal {
    n => f(n) * f(n)
  }

  /** The distance kept for a path is half the whole squared error so far. */
  lemma {:induction false} CostIsError(s: Setup, path: seq<int>)
    ensures Cost(s, path) == 0.5 * Sum(|path| * s.L, Square(Rest(s, path)))
  {
    if path != [] {
      var k := |path| - 1;
      var front, v := path[..k], path[k];
      assert path == front + [v];
      CostIsError(s, front);
      CostStep(s, front, v);
      SquaresSplit(s, front, v);
    } else {
      SumStep(0, Square(Rest(s, path)));
    }
  }

  lemma SameSquare(f: Signal, g: Signal, n: int)
    requires f(n) == g(n)
    ensures Square(f)(n) == Square(g)(n)
  {
  }

  lemma SquaresSplit(s: Setup, front: seq<int>, v: int)
    ensures var path := front + [v];
      Sum(|path| * s.L, Square(Rest(s, path))) == Sum(|front| * s.L, Square(Rest(s, front))) + Part(s, path, |front|)
  {
    var path, o := front + [v], |front| * s.L;
    var f, g := Square(Rest(s, path)), Square(Rest(s, front));
    LengthStep(|front|, s.L);
    forall n | 0 <= n < o
      ensures f(n) == g(n)
    {
      RestStep(s, front, v, n);
      AddedEarlier(s, v, o, n);
      SameSquare(Rest(s, path), Rest(s, front), n);
    }
    hide Rest, Added, Square;
    SumSplit(o, s.L, f, SquareFrom(Rest(s, path), o));
    SumExt(o, f, g);
  }

  /** Once the path fills the subframe, the distance is half the squared norm
      of the target less the filtered excitation. */
  lemma CostIsSlowError(s: Setup, path: seq<int>)
    ensures Cost(s, path) == 0.5 * SlowError(s.target, s.r, Exc(s, path))
  {
    hide Cost, Rest;
    var e := Exc(s, path);
    CostIsError(s, path);
    var f := Square(Rest(s, path));
    var g := Square(Residual(s.target, s.r, e));
    forall n | 0 <= n < |e|
      ensures f(n) == g(n)
    {
      RestIsResidual(s, path, n);
    }
    SumExt(|e|, f, g);
  }

  /** The target less r convolved with e. */
  function Residual(target: seq<real>, r: seq<real>, e: seq<real>): Signal {
    n => At(target, n) - Conv(Sig(r), e, |e|)(n)
  }

  /** The definition the search avoids computing: filter the whole excitation,
      subtract, square and sum. */
  function SlowError(target: seq<real>, r: seq<real>, e: seq<real>): real {
    Sum(|e|, Square(Residual(target, r, e)))
  }

  // --------------------------------------------- truncated codeword responses

  /** Value m of the response of a row: only the first m + 1 values of the row
      and of r matter. */
  function Response(s: Setup, row: int, m: int): real {
    0.03125 * Taps(s, row, m, m + 1)
  }

  function Taps(s: Setup, row: int, m: int, n: int): real
    decreases n
  {
    if n <= 0 then 0.0 else Taps(s, row, m, n - 1) + Shape(s, row, n - 1) * At(s.r, m - (n - 1))
  }

  lemma {:induction false} TapsBeyond(s: Setup, row: int, m: int, n: int)
    requires 0 <= m < n
    ensures Taps(s, row, m, n) == Taps(s, row, m, m + 1)
    decreases n
  {
    if n > m + 1 {
      TapsBeyond(s, row, m, n - 1);
    }
  }

  lemma {:induction false} AddedIsTaps(s: Setup, v: int, m: int, n: nat)
    ensures Sum(n, Terms(s, v, m)) == SignOf(s, v) * 0.03125 * Taps(s, RowOf(s, v), m, n)
  {
    hide *;
    SumStep(n, Terms(s, v, m));
    TapsStep(s, RowOf(s, v), m, n);
    if n > 0 {
      AddedIsTaps(s, v, m, n - 1);
      TermAt(s, v, m, n - 1);
      MulDistribute(SignOf(s, v) * 0.03125, Taps(s, RowOf(s, v), m, n - 1), Shape(s, RowOf(s, v), n - 1), At(s.r, m - (n - 1)));
    }
  }

  lemma TermAt(s: Setup, v: int, d: int, k: int)
    ensures Terms(s, v, d)(k) == SignOf(s, v) * 0.03125 * Shape(s, RowOf(s, v), k) * At(s.r, d - k)
  {
  }

  lemma SumStep(n: nat, f: int -> real)
    ensures Sum(n, f) == if n == 0 then 0.0 else Sum(n - 1, f) + f(n - 1)
  {
  }

  lemma TapsStep(s: Setup, row: int, m: int, n: nat)
    ensures Taps(s, row, m, n) == if n == 0 then 0.0 else Taps(s, row, m, n - 1) + Shape(s, row, n - 1) * At(s.r, m - (n - 1))
  {
  }

  lemma MulDistribute(c: real, t: real, x: real, y: real)
    ensures c * (t + x * y) == c * t + c * x * y
  {
  }

  /** Inside its own subvector, a codeword adds its truncated response. */
  lemma AddedHere(s: Setup, v: int, o: int, m: int)
    requires 0 <= m < s.L
    ensures Added(s, v, o)(o + m) == SignOf(s, v) * Response(s, RowOf(s, v), m)
  {
    hide Word, Taps, At, Sum;
    AddedIsTaps(s, v, m, s.L);
    TapsBeyond(s, RowOf(s, v), m, s.L);
    assert o + m - o == m;
  }

  /** The table compute_weighted_codebook fills. */
  ghost predicate Weighted(s: Setup, resp: seq<real>) {
    && |resp| == s.K * s.L
    && forall row, m :: 0 <= row < s.K && 0 <= m < s.L ==> resp[Cell(s, row, m)] == Response(s, row, m)
  }

  function Cell(s: Setup, row: int, m: int): (k: int)
    requires 0 <= row < s.K && 0 <= m < s.L
    ensures 0 <= k < s.K * s.L
  {
    EntryInBook(row, s.K, s.L, m, s.K * s.L);
    row * s.L + m
  }

  /** The subvector of a path's target at time o. */
  function Ahead(s: Setup, path: seq<int>): (x: seq<real>)
    ensures |x| == s.L
  {
    seq(s.L, m => Rest(s, path)(|path| * s.L + m))
  }

  predicate Label(s: Setup, v: int) {
    0 <= v < if s.sign then 2 * s.K else s.K
  }

  lemma {:induction false} PartIsDistance(s: Setup, path: seq<int>, v: int, resp: seq<real>, n: nat)
    requires Weighted(s, resp) && Label(s, v) && n <= s.L
    ensures Sum(n, SquareFrom(Rest(s, path + [v]), |path| * s.L))
         == Squared(Ahead(s, path), resp, RowOf(s, v) * s.L, SignOf(s, v), n)
  {
    hide *;
    SumStep(n, SquareFrom(Rest(s, path + [v]), |path| * s.L));
    SquaredStep(Ahead(s, path), resp, RowOf(s, v) * s.L, SignOf(s, v), n);
    if n > 0 {
      PartIsDistance(s, path, v, resp, n - 1);
      OneDifference(s, path, v, resp, n - 1);
    }
  }

  lemma SquaredStep(x: seq<real>, y: seq<real>, o: int, c: real, n: nat)
    ensures Squared(x, y, o, c, n) == if n == 0 then 0.0 else
      Squared(x, y, o, c, n - 1) + (At(x, n - 1) - c * At(y, o + (n - 1))) * (At(x, n - 1) - c * At(y, o + (n - 1)))
  {
    assert n > 0 ==> o + n - 1 == o + (n - 1);
  }

  /** The target after the choice is the target before less the response. */
  lemma OneDifference(s: Setup, path: seq<int>, v: int, resp: seq<real>, m: nat)
    requires Weighted(s, resp) && Label(s, v) && m < s.L
    ensures SquareFrom(Rest(s, path + [v]), |path| * s.L)(m)
      == (At(Ahead(s, path), m) - SignOf(s, v) * At(resp, RowOf(s, v) * s.L + m))
       * (At(Ahead(s, path), m) - SignOf(s, v) * At(resp, RowOf(s, v) * s.L + m))
  {
    hide Rest, Ahead, SignOf, At, RowOf, SquareFrom, Weighted;
    var o := |path| * s.L;
    SquareAt(Rest(s, path + [v]), o, m);
    RestHere(s, path, v, resp, m, o);
  }

  lemma RestHere(s: Setup, path: seq<int>, v: int, resp: seq<real>, m: nat, o: int)
    requires Weighted(s, resp) && Label(s, v) && m < s.L && o == |path| * s.L
    ensures Rest(s, path + [v])(o + m) == Less(At(Ahead(s, path), m), SignOf(s, v), At(resp, RowOf(s, v) * s.L + m))
  {
    RowIn(s, v);
    hide *;
    RestOneMore(s, path, v, m, o);
    ResponseAt(s, resp, RowOf(s, v), m);
    AheadAt(s, path, m);
  }

  function Less(x: real, c: real, y: real): real {
    x - c * y
  }

  lemma RestOneMore(s: Setup, path: seq<int>, v: int, m: nat, o: int)
    requires Label(s, v) && m < s.L && o == |path| * s.L
    ensures Rest(s, path + [v])(o + m) == Less(Rest(s, path)(o + m), SignOf(s, v), Response(s, RowOf(s, v), m))
  {
    hide Rest, Added, SignOf, Response, RowOf;
    RestStep(s, path, v, o + m);
    AddedHere(s, v, o, m);
  }

  lemma RowIn(s: Setup, v: int)
    requires Label(s, v)
    ensures 0 <= RowOf(s, v) < s.K
  {
  }

  lemma SquareAt(f: Signal, o: int, m: int)
    ensures SquareFrom(f, o)(m) == f(o + m) * f(o + m)
  {
  }

  lemma ResponseAt(s: Setup, resp: seq<real>, row: int, m: int)
    requires Weighted(s, resp) && 0 <= row < s.K && 0 <= m < s.L
    ensures At(resp, row * s.L + m) == Response(s, row, m)
  {
    hide Response;
    assert resp[Cell(s, row, m)] == Response(s, row, m);
  }

  lemma AheadAt(s: Setup, path: seq<int>, m: int)
    requires 0 <= m < s.L
    ensures At(Ahead(s, path), m) == Rest(s, path)(|path| * s.L + m)
  {
    hide Rest;
  }

  /** The cost of appending a codeword, as the search computes it: the energy
      of the subvector of the target and the rank of the codeword. */
  lemma CostOfChoice(s: Setup, path: seq<int>, v: int, resp: seq<real>)
    requires Weighted(s, resp) && Label(s, v)
    ensures Cost(s, path + [v]) == Cost(s, path) + 0.5 * SquaredDistance(Ahead(s, path), resp, s.L, RowOf(s, v), SignOf(s, v))
  {
    PartIsDistance(s, path, v, resp, s.L);
    CostStep(s, path, v);
    hide Cost, Rest, Squared, Ahead, Weighted;
  }
}
