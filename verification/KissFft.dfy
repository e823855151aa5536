/** kiss_fft.c: the factoriser, the shuffle, the staged transform and the
    user-callable transform. */
module KissFft {
  import opened IntArith
  import opened Complex
  import opened Twiddles
  import opened FftSpec
  import opened Butterflies
  import opened Primes

  // ------------------------------------------------------------ factoriser

  /** The pairs written so far take n down to rest. */
  ghost predicate Chain(fac: seq<int>, n: int, rest: int) {
    if fac == [] then n == rest
    else |fac| >= 2 && fac[0] >= 1 && fac[1] >= 1 && fac[0] * fac[1] == n && Chain(fac[2..], fac[1], rest)
  }

  /** A radix above 17 has no prime factor of 17 or less. */
  ghost predicate RoughAboveSeventeen(r: int) {
    r > 17 ==> NoDivisorBelow(r, 18)
  }

  ghost predicate AllRough(fac: seq<int>) {
    if |fac| < 2 then true else RoughAboveSeventeen(fac[0]) && AllRough(fac[2..])
  }

  lemma {:induction false} ChainAppend(fac: seq<int>, n: int, rest: int, p: int, m: int)
    requires Chain(fac, n, rest) && p >= 1 && m >= 1 && p * m == rest
    ensures Chain(fac + [p, m], n, m)
    decreases |fac|
  {
    if fac == [] {
      assert [p, m][2..] == [];
    } else {
      ChainAppend(fac[2..], fac[1], rest, p, m);
      assert (fac + [p, m])[2..] == fac[2..] + [p, m];
    }
  }

  lemma {:induction false} RoughAppend(fac: seq<int>, n: int, rest: int, p: int, m: int)
    requires Chain(fac, n, rest) && AllRough(fac) && RoughAboveSeventeen(p)
    ensures AllRough(fac + [p, m])
    decreases |fac|
  {
    if fac == [] {
      assert fac + [p, m] == [p, m];
    } else {
      RoughAppend(fac[2..], fac[1], rest, p, m);
      assert (fac + [p, m])[2..] == fac[2..] + [p, m];
    }
  }

  /** A complete chain is a factor list, whatever the buffer holds after it. */
  lemma {:induction false} ChainFactored(fac: seq<int>, n: int, buf: seq<int>)
    requires Chain(fac, n, 1) && fac != [] && fac <= buf
    ensures Factored(buf, n)
    decreases |fac|
  {
    if fac[1] > 1 {
      ChainFactored(fac[2..], fac[1], buf[2..]);
    }
  }

  /** Every radix divides n, so a radix above 17 brings a prime above 17. */
  lemma {:induction false} SmoothIfSmall(fac: seq<int>, n: int, buf: seq<int>)
    requires Chain(fac, n, 1) && fac != [] && fac <= buf && AllRough(fac)
    ensures SmallRadices(buf) <==> Smooth(n)
    decreases |fac|
  {
    var p, m := fac[0], fac[1];
    MultipleMod(p, m);
    if p > 17 {
      ModUnique(p, p, 1, 0);
      var d := PrimeDivisor(p, 18);
      DividesProduct(d, p, m);
      assert Prime(d) && n % d == 0;
    } else if m > 1 {
      SmoothIfSmall(fac[2..], m, buf[2..]);
      SmoothSplit(p, m);
    } else {
      assert n == p;
      SmallSmooth(p);
    }
  }

  lemma SmallSmooth(p: int)
    requires 1 <= p <= 17
    ensures Smooth(p)
  {
    forall d | Prime(d) && p % d == 0
      ensures d <= 17
    {
      var k := Divides(d, p);
    }
  }

  /** A small cofactor does not change smoothness. */
  lemma SmoothSplit(p: int, m: int)
    requires 1 <= p <= 17 && m >= 1
    ensures Smooth(p * m) <==> Smooth(m)
  {
    SmallSmooth(p);
    if Smooth(m) {
      forall d | Prime(d) && (p * m) % d == 0
        ensures d <= 17
      {
        Euclid(d, p, m);
      }
    }
    if Smooth(p * m) {
      forall d | Prime(d) && m % d == 0
        ensures d <= 17
      {
        DividesProduct(d, m, p);
        assert m * p == p * m;
      }
    }
  }

  lemma {:induction false} Pow2Grows(j: nat, k: nat)
    requires j <= k
    ensures 1 <= Pow2(j) <= Pow2(k)
    decreases k
  {
    if j < k {
      Pow2Grows(j, k - 1);
    } else if k > 0 {
      Pow2Grows(k - 1, k - 1);
    }
  }

  /** What is known of the candidate radix p while n remains: the smaller
      numbers have been tried and do not divide n. */
  ghost predicate Tried(n: int, p: int) {
    || p == 4
    || (p == n && (n <= 17 || NoDivisorBelow(n, 18)))
    || ((p == 2 || (p >= 3 && p % 2 == 1)) && NoDivisorBelow(n, p))
  }

  lemma TriedRough(n: int, p: int)
    requires Tried(n, p) && n >= 1 && p >= 1 && n % p == 0
    ensures RoughAboveSeventeen(p)
  {
    if p > 17 {
      var k := Divides(p, n);
      forall e | 2 <= e < 18
        ensures p % e != 0
      {
        if p % e == 0 {
          DividesProduct(e, p, k);
        }
      }
    }
  }

  /** Dividing n by the radix keeps what was tried. */
  lemma TriedQuotient(n: int, p: int, m: int)
    requires Tried(n, p) && p >= 1 && m > 1 && n == p * m
    ensures Tried(m, p)
  {
    assert p != n;
    forall e | 2 <= e < p && NoDivisorBelow(n, p)
      ensures m % e != 0
    {
      if m % e == 0 {
        DividesProduct(e, m, p);
      }
    }
  }

  /** The step of the inner loop to the next candidate. */
  function NextRadix(n: int, p: int): int {
    var q := if p == 4 then 2 else if p == 2 then 3 else p + 2;
    if q > 32000 || q * q > n then n else q
  }

  lemma NextTried(n: int, p: int)
    requires n >= 1 && p >= 1 && n % p != 0 && Tried(n, p)
    ensures Tried(n, NextRadix(n, p)) && 1 <= NextRadix(n, p) <= n
  {
    ModUnique(n, n, 1, 0);
    var q := if p == 4 then 2 else if p == 2 then 3 else p + 2;
    if p == 2 {
      assert NoDivisorBelow(n, 3);
    } else if p != 4 {
      OddSkip(n, p);
    }
    assert NoDivisorBelow(n, q);
    if n >= 2 && q <= 32000 && q * q > n {
      NoSmallDivisors(n, q);
    }
    if q * q <= n {
      assert q * q >= 2 * q;
    }
  }

  /** The order of the radices: 4 as often as it goes, 2 at most once, then odd
      ones. */
  ghost predicate FoursFirst(fac: seq<int>) {
    |fac| >= 2 ==> (fac[0] == 4 || fac[0] == 2 || fac[0] % 2 == 1) && (|fac| >= 4 ==> After(fac[0], fac[2])) && FoursFirst(fac[2..])
  }

  predicate After(p: int, q: int) {
    p == 4 || q % 2 == 1
  }

  /** Where the candidates have got to: below 4 only where 4 does not divide,
      and odd ones where 2 does not. */
  predicate Reached(n: int, p: int) {
    p == 4 || (p == 2 && n % 4 != 0) || (p % 2 == 1 && n % 2 == 1)
  }

  /** Which radix may follow the last one while n remains. */
  predicate Follows(fac: seq<int>, n: int) {
    |fac| >= 2 ==> fac[|fac| - 2] == 4 || n % 2 == 1
  }

  lemma {:induction false} FoursFirstAppend(fac: seq<int>, p: int, m: int)
    requires FoursFirst(fac) && |fac| % 2 == 0 && (p == 4 || p == 2 || p % 2 == 1) && (|fac| >= 2 ==> After(fac[|fac| - 2], p))
    ensures FoursFirst(fac + [p, m])
    decreases |fac|
  {
    if fac == [] {
      assert (fac + [p, m])[2..] == [];
    } else {
      FoursFirstAppend(fac[2..], p, m);
      assert (fac + [p, m])[2..] == fac[2..] + [p, m];
    }
  }

  /** How many of the radices are 2. */
  function Twos(fac: seq<int>): nat {
    if |fac| < 2 then 0 else (if fac[0] == 2 then 1 else 0) + Twos(fac[2..])
  }

  /** So at most one of them is. */
  lemma {:induction false} OneTwo(fac: seq<int>)
    requires FoursFirst(fac)
    ensures Twos(fac) <= 1 && (|fac| >= 2 && fac[0] % 2 == 1 ==> Twos(fac) == 0)
    decreases |fac|
  {
    if |fac| >= 2 {
      OneTwo(fac[2..]);
    }
  }

  lemma NextReached(n: int, p: int)
    requires n >= 1 && p >= 1 && n % p != 0 && Reached(n, p)
    ensures Reached(n, NextRadix(n, p))
  {
    NextIs(n, p);
    hide NextRadix;
  }

  lemma NextIs(n: int, p: int)
    requires n >= 1
    ensures NextRadix(n, p) == n || NextRadix(n, p) == if p == 4 then 2 else if p == 2 then 3 else p + 2
    ensures p == 4 && n >= 4 ==> NextRadix(n, p) == 2
  {
  }

  /** One more radix: n is p times m. */
  lemma OrderStep(fac: seq<int>, n: int, p: int, m: int)
    requires FoursFirst(fac) && |fac| % 2 == 0 && n >= 1 && p >= 1 && n == p * m && Reached(n, p) && Follows(fac, n)
    ensures FoursFirst(fac + [p, m]) && Reached(m, p) && Follows(fac + [p, m], m)
  {
    Parities(p, m);
    FoursFirstAppend(fac, p, m);
  }

  lemma Parities(p: int, m: int)
    requires p >= 1
    ensures p == 2 && (p * m) % 4 != 0 ==> m % 2 == 1
    ensures (p * m) % 2 == 1 ==> p % 2 == 1 && m % 2 == 1
  {
    if p % 2 == 0 {
      Even(p / 2, m);
      assert p == 2 * (p / 2);
    }
    if m % 2 == 0 {
      Even(m / 2, p);
      assert m == 2 * (m / 2);
    }
  }

  lemma Even(h: int, x: int)
    ensures (2 * h * x) % 2 == 0 && (x * (2 * h)) % 2 == 0
  {
    MultipleMod(2, h * x);
    assert 2 * h * x == 2 * (h * x) && x * (2 * h) == 2 * (h * x);
  }

  /** The buffer of 64 entries is never overrun: each radix is at least 2. */
  lemma CountBound(n0: int, n: int, count: nat)
    requires 1 <= n0 < 0x8000_0000 && n >= 1 && n * Pow2(count) <= n0
    ensures count <= 30
  {
    hide Pow2;
    Pow2Grows(0, count);
    MulAtLeast(n, Pow2(count));
    Pow2Thirtyone();
    if count > 30 {
      Pow2Grows(31, count);
    }
  }

  lemma MulAtLeast(n: int, x: int)
    requires n >= 1 && x >= 0
    ensures n * x >= x
  {
  }

  lemma Pow2Thirtyone()
    ensures Pow2(31) == 0x8000_0000
  {
    assert Pow2(8) == 256;
    assert Pow2(16) == 65536;
    assert Pow2(24) == 0x100_0000;
  }

  lemma HalveStep(n0: int, n: int, p: int, count: nat)
    requires n >= 1 && p >= 2 && n * p * Pow2(count) <= n0
    ensures n * Pow2(count + 1) <= n0
  {
    Pow2Grows(0, count);
    var x := n * Pow2(count);
    assert n * p * Pow2(count) == p * x;
    assert p * x >= 2 * x;
  }

  lemma EmptyChain(n0: int)
    ensures Chain([], n0, n0) && AllRough([]) && Tried(n0, 4) && n0 * Pow2(0) <= n0
  {
  }

  lemma NoRadix(n0: int)
    ensures FoursFirst([]) && Reached(n0, 4) && Follows([], n0)
  {
  }

  lemma QuotientIs(n: int, p: int)
    requires p >= 1 && n % p == 0
    ensures n == p * (n / p)
  {
  }

  lemma QuotientBound(n: int, p: int, m: int)
    requires n == p * m && n >= 1 && p >= 1 && (p == 1 ==> n == 1)
    ensures 1 <= m <= n && (n > 1 ==> m < n)
  {
  }

  /** Writing one more pair. */
  lemma FactorStep(fac: seq<int>, n0: int, n: int, p: int)
    requires 1 <= n <= n0 < 0x8000_0000 && p >= 1 && n % p == 0 && Tried(n, p) && |fac| % 2 == 0
    requires Chain(fac, n0, n) && AllRough(fac)
    requires n * Pow2(|fac| / 2) <= n0
    ensures 1 <= n / p <= n && (n > 1 ==> n / p < n)
    ensures Chain(fac + [p, n / p], n0, n / p) && AllRough(fac + [p, n / p]) && |fac| + 2 <= 64
    ensures n / p > 1 ==> Tried(n / p, p) && (n / p) * Pow2((|fac| + 2) / 2) <= n0
  {
    assert p == 1 ==> n == 1;
    hide Chain, AllRough, RoughAboveSeventeen, Tried, Pow2;
    var m := Divides(p, n);
    ModUnique(n, p, m, 0);
    QuotientBound(n, p, m);
    TriedRough(n, p);
    CountBound(n0, n, |fac| / 2);
    FactorAppend(fac, n0, n, p, m);
    if m > 1 {
      FactorRest(n0, n, p, m, |fac| / 2);
    }
  }

  lemma FactorAppend(fac: seq<int>, n0: int, n: int, p: int, m: int)
    requires Chain(fac, n0, n) && AllRough(fac) && RoughAboveSeventeen(p) && p >= 1 && m >= 1 && p * m == n
    ensures Chain(fac + [p, m], n0, m) && AllRough(fac + [p, m])
  {
    hide *;
    ChainAppend(fac, n0, n, p, m);
    RoughAppend(fac, n0, n, p, m);
  }

  lemma FactorRest(n0: int, n: int, p: int, m: int, count: nat)
    requires Tried(n, p) && p >= 1 && m > 1 && n == p * m && n * Pow2(count) <= n0
    ensures Tried(m, p) && m * Pow2(count + 1) <= n0
  {
    assert p != 1;
    hide Tried, Pow2;
    TriedQuotient(n, p, m);
    assert m * p == n;
    HalveStep(n0, m, p, count);
  }

  lemma FinishFactors(fac: seq<int>, n0: int, buf: seq<int>)
    requires Chain(fac, n0, 1) && AllRough(fac) && fac != [] && fac <= buf
    ensures Factored(buf, n0) && (SmallRadices(buf) <==> Smooth(n0))
  {
    ChainFactored(fac, n0, buf);
    SmoothIfSmall(fac, n0, buf);
  }

  /** The inner loop: powers of 4, then 2, then odd candidates, giving up on
      the square root or at 32000. */
  method NextDivisor(n: int, p0: int) returns (p: int)
    requires n >= 1 && p0 >= 1 && Tried(n, p0) && Reached(n, p0)
    ensures p >= 1 && n % p == 0 && Tried(n, p) && Reached(n, p)
  {
    hide Tried, Reached;
    p := p0;
    while n % p != 0
      invariant p >= 1 && Tried(n, p) && Reached(n, p)
      decreases if n % p == 0 then 0 else if p == 4 then n + 2 else if p > n then 1 else n - p + 1
    {
      NextTried(n, p);
      NextReached(n, p);
      ModUnique(n, n, 1, 0);
      match p {
        case 4 => p := 2;
        case 2 => p := 3;
        case _ => p := p + 2;
      }
      if p > 32000 || p * p > n {
        p := n;
      }
    }
  }

  /** Factors n into radices 4, 2, 3, 5, 7, ... and the cofactors they leave. */
  method KfFactor(n0: int, facbuf: array<int>) returns (ghost fac: seq<int>)
    requires 1 <= n0 < 0x8000_0000 && facbuf.Length >= 64
    modifies facbuf
    ensures Factored(facbuf[..], n0)
    ensures SmallRadices(facbuf[..]) <==> Smooth(n0)
    ensures fac <= facbuf[..] && Chain(fac, n0, 1) && FoursFirst(fac) && Twos(fac) <= 1
  {
    hide Chain, AllRough, Tried, RoughAboveSeventeen, Factored, SmallRadices, Smooth, FoursFirst, Reached, Follows, Twos;
    var n, p, w := n0, 4, 0;
    fac := [];
    EmptyChain(n0);
    NoRadix(n0);
    var first := true;
    while first || n > 1
      invariant 1 <= n <= n0 && p >= 1
      invariant first || n > 1 ==> Tried(n, p) && n * Pow2(w / 2) <= n0
      invariant first ==> n == n0 && fac == []
      invariant |fac| == w <= facbuf.Length && w % 2 == 0 && fac == facbuf[..w]
      invariant !first ==> fac != []
      invariant Chain(fac, n0, n) && AllRough(fac)
      invariant FoursFirst(fac) && Reached(n, p) && Follows(fac, n)
      decreases first, n
    {
      p := NextDivisor(n, p);
      FactorStep(fac, n0, n, p);
      QuotientIs(n, p);
      OrderStep(fac, n, p, n / p);
      n := n / p;
      first := false;
      facbuf[w] := p;
      facbuf[w + 1] := n;
      fac := fac + [p, n];
      assert facbuf[..w + 2] == facbuf[..w] + [p, n];
      w := w + 2;
    }
    FinishFactors(fac, n0, facbuf[..]);
    OneTwo(fac);
  }

  // --------------------------------------------------------------- shuffle

  /** Where the shuffle of one sub-block reads. */
  lemma ShuffleIndex(p: int, m: int, s: int, fo: int, j: int, length: int)
    requires p >= 1 && m >= 1 && s >= 0 && 0 <= j < p && fo >= 0
    requires fo + s * (p * m - 1) < length
    ensures 0 <= fo + s * j && fo + s * j + s * p * (m - 1) < length
  {
    assert s * j + s * p * (m - 1) == s * (j + p * (m - 1));
    assert j + p * (m - 1) <= p * m - 1;
    assert s * (j + p * (m - 1)) <= s * (p * m - 1);
  }

  /** After shuffling sub-block j, positions below (j+1)m hold their samples. */
  lemma ShuffleRow(fac: seq<int>, s: int, fo: int, j: int, r: int)
    requires |fac| >= 2 && fac[1] > 1 && 0 <= r < fac[1]
    ensures fo + s * j + s * fac[0] * Rev(fac[2..], r) == fo + s * Rev(fac, j * fac[1] + r)
  {
    RevDigit(fac, j, r);
    SplitProduct(s, fac[0], Rev(fac[2..], r), j);
  }

  ghost predicate Gathered(Fout: seq<Cpx>, o: int, f: seq<Cpx>, fo: int, s: int, fac: seq<int>, count: int) {
    forall x {:trigger Fout[x]} :: 0 <= x < |Fout| && o <= x < o + count ==>
      Fout[x] == At(f, fo + s * Rev(fac, x - o))
  }

  ghost predicate SameOutside(S: seq<Cpx>, S': seq<Cpx>, o: int, count: int) {
    && |S'| == |S|
    && forall x {:trigger S'[x]} :: 0 <= x < |S| && !(o <= x < o + count) ==> S'[x] == S[x]
  }

  lemma GatherRow(S: seq<Cpx>, S1: seq<Cpx>, S2: seq<Cpx>, o: int, f: seq<Cpx>, fo: int, s: int, fac: seq<int>, j: int)
    requires |fac| >= 2 && fac[1] > 1 && j >= 0
    requires Gathered(S1, o, f, fo, s, fac, j * fac[1]) && SameOutside(S, S1, o, j * fac[1])
    requires Gathered(S2, o + j * fac[1], f, fo + s * j, s * fac[0], fac[2..], fac[1])
    requires SameOutside(S1, S2, o + j * fac[1], fac[1])
    ensures Gathered(S2, o, f, fo, s, fac, (j + 1) * fac[1]) && SameOutside(S, S2, o, (j + 1) * fac[1])
  {
    hide Rev, At;
    var m := fac[1];
    assert (j + 1) * m == j * m + m && j * m >= 0;
    forall x {:trigger S2[x]} | 0 <= x < |S2| && o <= x < o + (j + 1) * m
      ensures S2[x] == At(f, fo + s * Rev(fac, x - o))
    {
      if x >= o + j * m {
        ShuffleRow(fac, s, fo, j, x - o - j * m);
      }
    }
  }

  /** Copies the block of f at fo, read at the given strides, to the block of
      Fout at o in digit-reversed order. */
  method KfShuffle(Fout: array<Cpx>, o: nat, f: array<Cpx>, fo: nat, fstride: nat, in_stride: nat, fac: seq<int>, ghost len: nat)
    requires Fout != f && Factored(fac, len)
    requires o + len <= Fout.Length && fo + fstride * in_stride * (len - 1) < f.Length
    modifies Fout
    ensures Gathered(Fout[..], o, f[..], fo, fstride * in_stride, fac, len)
    ensures SameOutside(old(Fout[..]), Fout[..], o, len)
    decreases |fac|
  {
    hide Rev, At, Gathered, SameOutside;
    var p, m := fac[0], fac[1];
    if m == 1 {
      ShuffleLeaf(Fout, o, f, fo, fstride * in_stride, fac, p);
    } else {
      ghost var s := fstride * in_stride;
      StrideSwap(fstride, in_stride, p);
      ghost var S := Fout[..];
      GatherNone(S, o, f[..], fo, s, fac, m);
      var fp, fr := fo, o;
      for j := 0 to p
        invariant fp == fo + s * j && fr == o + j * m
        invariant Gathered(Fout[..], o, f[..], fo, s, fac, j * m) && SameOutside(S, Fout[..], o, j * m)
      {
        ghost var S1 := Fout[..];
        ShuffleIndex(p, m, s, fo, j, f.Length);
        RowFits(p, m, j, o, Fout.Length);
        KfShuffle(Fout, fr, f, fp, fstride * p, in_stride, fac[2..], m);
        GatherRow(S, S1, Fout[..], o, f[..], fo, s, fac, j);
        fp := fp + fstride * in_stride;
        fr := fr + m;
      }
    }
  }

  lemma StrideSwap(a: int, b: int, p: int)
    ensures a * p * b == a * b * p
  {
  }

  method ShuffleLeaf(Fout: array<Cpx>, o: nat, f: array<Cpx>, fo: nat, step: nat, ghost fac: seq<int>, p: nat)
    requires Fout != f && |fac| >= 2 && fac[0] == p && fac[1] == 1
    requires o + p <= Fout.Length && fo + step * (p - 1) < f.Length
    modifies Fout
    ensures Gathered(Fout[..], o, f[..], fo, step, fac, p)
    ensures SameOutside(old(Fout[..]), Fout[..], o, p)
  {
    hide Rev, At, Gathered, SameOutside;
    ghost var S := Fout[..];
    GatherNone(S, o, f[..], fo, step, fac, 1);
    var fp := fo;
    for j := 0 to p
      invariant fp == fo + step * j
      invariant Gathered(Fout[..], o, f[..], fo, step, fac, j) && SameOutside(S, Fout[..], o, j)
    {
      LeafBound(step, j, p, fo, f.Length);
      GatherLeaf(S, Fout[..], o, f[..], fo, step, fac, j);
      Fout[o + j] := f[fp];
      fp := fp + step;
    }
  }

  lemma RowFits(p: int, m: int, j: int, o: int, length: int)
    requires 0 <= j < p && m >= 1 && o + p * m <= length
    ensures 0 <= j * m && o + j * m + m <= length
  {
    assert j * m + m <= p * m by { assert (p - j - 1) * m >= 0; }
  }

  lemma LeafBound(s: int, j: int, p: int, fo: int, length: int)
    requires s >= 0 && 0 <= j < p && fo + s * (p - 1) < length
    ensures fo + s * j < length
  {
    assert s * j <= s * (p - 1);
  }

  lemma GatherNone(S: seq<Cpx>, o: int, f: seq<Cpx>, fo: int, s: int, fac: seq<int>, m: int)
    ensures Gathered(S, o, f, fo, s, fac, 0 * m) && SameOutside(S, S, o, 0 * m)
  {
    hide Rev, At;
  }

  lemma GatherLeaf(S: seq<Cpx>, S1: seq<Cpx>, o: int, f: seq<Cpx>, fo: int, s: int, fac: seq<int>, j: int)
    requires |fac| >= 2 && fac[1] == 1 && j >= 0 && 0 <= o && o + j < |S| && 0 <= fo + s * j < |f|
    requires Gathered(S1, o, f, fo, s, fac, j) && SameOutside(S, S1, o, j)
    ensures |S1| == |S|
    ensures var S2 := S1[o + j := f[fo + s * j]];
      Gathered(S2, o, f, fo, s, fac, j + 1) && SameOutside(S, S2, o, j + 1)
  {
    LeafRev(fac, j);
    hide Rev;
  }

  // ---------------------------------------------------------------- stages

  /** One stage over all N blocks, dispatched on the radix. False when the
      radix is above what the generic butterfly can hold. */
  method Stages(Fout: array<Cpx>, fstride: nat, tw: seq<Cpx>, inverse: bool, p: nat, m: nat, N: nat, m2: nat) returns (ok: bool)
    requires ValidTable(tw, inverse) && fstride > 0 && m > 0 && p > 0 && fstride * p * m == |tw|
    requires N == 1 || m2 == p * m
    requires N * (p * m) <= Fout.Length
    requires N > 0
    modifies Fout
    ensures ok == (p <= 17)
    ensures ok ==> BlocksDone(tw, fstride, p, m, old(Fout[..]), Fout[..], N)
  {
    hide ValidTable, BlockDone, BlocksDone, ButterflyAt, StageAt;
    ghost var S := Fout[..];
    if p == 2 {
      Bfly2(Fout, fstride, tw, inverse, m, N, m2);
      return true;
    }
    if p == 4 {
      Bfly4(Fout, fstride, tw, inverse, m, N, m2);
      return true;
    }
    BlocksStart(tw, fstride, p, m, S);
    for i := 0 to N
      invariant i > 0 ==> p <= 17
      invariant BlocksDone(tw, fstride, p, m, S, Fout[..], i)
    {
      var o := i * m2;
      BlockStart(i, N, p * m, m2);
      ghost var S1 := Fout[..];
      ok := OneBlock(Fout, o, fstride, tw, inverse, p, m);
      if !ok {
        return;
      }
      BlockStep(tw, fstride, p, m, S, S1, Fout[..], o, i, N);
    }
    return true;
  }

  method OneBlock(Fout: array<Cpx>, o: nat, fstride: nat, tw: seq<Cpx>, inverse: bool, p: nat, m: nat) returns (ok: bool)
    requires ValidTable(tw, inverse) && fstride > 0 && m > 0 && p > 0 && fstride * p * m == |tw|
    requires o + p * m <= Fout.Length && p != 2 && p != 4
    modifies Fout
    ensures ok == (p <= 17)
    ensures ok ==> BlockDone(tw, fstride, p, m, old(Fout[..]), Fout[..], o)
  {
    hide ValidTable, BlockDone, ButterflyAt;
    match p {
      case 3 =>
        Bfly3(Fout, o, fstride, tw, inverse, m);
        ok := true;
      case 5 =>
        Bfly5(Fout, o, fstride, tw, inverse, m);
        ok := true;
      case _ =>
        ok := BflyGeneric(Fout, o, fstride, tw, inverse, m, p);
    }
  }

  /** All stages, innermost first, each over all its blocks. */
  method KfWork(Fout: array<Cpx>, fstride: nat, tw: seq<Cpx>, inverse: bool, fac: seq<int>, N: nat, m2: nat, ghost len: nat) returns (ok: bool)
    requires ValidTable(tw, inverse) && fstride > 0 && N > 0
    requires Factored(fac, len) && fstride * len == |tw|
    requires N == 1 || m2 == len
    requires N * len <= Fout.Length
    modifies Fout
    ensures ok == SmallRadices(fac)
    ensures ok ==> Fout[..N * len] == Work(tw, fstride, fac, old(Fout[..N * len]))
    ensures ok ==> Fout[N * len..] == old(Fout[N * len..])
    decreases |fac|
  {
    hide ValidTable, BlocksDone, StageAt, ButterflyAt, Stage;
    ghost var n := N * len;
    var p, m := fac[0], fac[1];
    StageSizes(fstride, p, m, N, len, |tw|);
    ghost var S := Fout[..];
    if m != 1 {
      ok := KfWork(Fout, fstride * p, tw, inverse, fac[2..], N * p, m, m);
      if !ok {
        return;
      }
    }
    ghost var S1 := Fout[..];
    ok := Stages(Fout, fstride, tw, inverse, p, m, N, m2);
    if ok {
      BlocksAll(tw, fstride, p, m, S1, Fout[..], N, n);
    }
  }

  lemma StageSizes(t: int, p: int, m: int, N: int, len: int, n: int)
    requires len == p * m && p >= 1 && m >= 1 && N >= 1 && t * len == n && t >= 1
    ensures t * p * m == n && N * p * m == N * len && N * p >= 1 && t * p >= 1
  {
    assert t * (p * m) == t * p * m;
    assert N * (p * m) == N * p * m;
  }

  // ------------------------------------------------------------- interface

  /** A transform of fixed size. The cosines and sines of the twiddle table
      come from outside; the factors are computed once and never change. */
  class KissFftState {
    const nfft: nat
    const inverse: bool
    const twiddles: seq<Cpx>
    const factors: array<int>

    ghost predicate Valid()
      reads factors
    {
      && nfft == |twiddles| && ValidTable(twiddles, inverse)
      && Factored(factors[..], nfft)
      && (SmallRadices(factors[..]) <==> Smooth(nfft))
    }

    /** kiss_fft_alloc */
    constructor (tw: seq<Cpx>, inverse_fft: bool)
      requires ValidTable(tw, inverse_fft) && |tw| < 0x8000_0000
      ensures Valid() && twiddles == tw && inverse == inverse_fft && fresh(factors)
    {
      nfft := |tw|;
      inverse := inverse_fft;
      twiddles := tw;
      var facbuf := new int[64];
      factors := facbuf;
      new;
      ghost var fac := KfFactor(nfft, facbuf);
    }

    /** kiss_fft_stride: the transform of every in_stride-th value of fin. It
        is refused in place and when a prime above 17 divides the size. */
    method Stride(fin: array<Cpx>, fout: array<Cpx>, in_stride: nat) returns (ok: bool)
      requires Valid()
      requires fout.Length >= nfft && fin.Length > in_stride * (nfft - 1)
      modifies fout
      ensures Valid()
      ensures ok <==> fin != fout && Smooth(nfft)
      ensures ok ==> forall k :: 0 <= k < nfft ==> fout[k] == Dft(twiddles, fin[..], in_stride, k)
      ensures ok ==> fout[nfft..] == old(fout[nfft..])
    {
      hide ValidTable, Work, Dft, Smooth, Factored, SmallRadices;
      if fin == fout {
        return false;
      }
      var fac := factors[..];
      ghost var tail := fout[nfft..];
      KfShuffle(fout, 0, fin, 0, 1, in_stride, fac, nfft);
      ghost var S := fout[..nfft];
      assert fout[nfft..] == tail;
      forall r | 0 <= r < nfft
        ensures S[r] == At(fin[..], in_stride * Rev(fac, r))
      {
        assert fout[..][r] == At(fin[..], 0 + 1 * in_stride * Rev(fac, r - 0));
      }
      ok := KfWork(fout, 1, twiddles, inverse, fac, 1, 1, nfft);
      if ok {
        assert 1 * nfft == nfft;
        forall k | 0 <= k < nfft
          ensures fout[k] == Dft(twiddles, fin[..], in_stride, k)
        {
          FftIsDft(twiddles, inverse, fac, S, fin[..], in_stride, k);
          assert fout[..nfft][k] == fout[k];
        }
      }
    }
  }
}
