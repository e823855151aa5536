/** The twiddle table of a transform, taken abstractly: the powers of a
    primitive root of unity on the unit circle, and the discrete Fourier
    transform they define. */
module Twiddles {
  import opened IntArith
  import opened Complex

  /** What kiss_fft_alloc's cosines and sines provide. The inverse table turns
      the other way, which only a quarter turn needs to know. */
  ghost predicate ValidTable(tw: seq<Cpx>, inverse: bool) {
    var n := |tw|;
    && n > 0
    && tw[0] == One
    && Multiplicative(tw)
    && OnUnitCircle(tw)
    && (forall i :: 0 < i < n ==> tw[i] != One)
    && (n % 4 == 0 ==> if inverse then tw[n / 4].i > 0.0 else tw[n / 4].i < 0.0)
  }

  ghost predicate Multiplicative(tw: seq<Cpx>) {
    forall i, j {:trigger Mul(tw[i], tw[j])} ::
      0 <= i < |tw| && 0 <= j < |tw| ==> Mul(tw[i], tw[j]) == tw[(i + j) % |tw|]
  }

  ghost predicate OnUnitCircle(tw: seq<Cpx>) {
    forall i {:trigger Conj(tw[i])} :: 0 < i < |tw| ==> tw[|tw| - i] == Conj(tw[i])
  }

  /** Such tables exist; those of one, two and four entries have whole numbers
      in them. */
  lemma SmallTables(inverse: bool)
    ensures ValidTable(TurnTable(1, 1.0), inverse) && ValidTable(TurnTable(2, 1.0), inverse)
    ensures ValidTable(TurnTable(4, if inverse then 1.0 else -1.0), inverse)
  {
    hide *;
    TurnsMultiply(1, 1.0);
    TurnsMultiply(2, 1.0);
    TurnsMultiply(4, if inverse then 1.0 else -1.0);
    SmallerTables(inverse);
    FourEntries(if inverse then 1.0 else -1.0, inverse);
  }

  lemma SmallerTables(inverse: bool)
    requires Multiplicative(TurnTable(1, 1.0)) && Multiplicative(TurnTable(2, 1.0))
    ensures ValidTable(TurnTable(1, 1.0), inverse) && ValidTable(TurnTable(2, 1.0), inverse)
  {
    var t1, t2 := TurnTable(1, 1.0), TurnTable(2, 1.0);
    assert t1[0] == One && t2[0] == One && t2[1] == Cpx(-1.0, 0.0);
    hide Multiplicative, TurnTable;
  }

  lemma FourEntries(s: real, inverse: bool)
    requires s == (if inverse then 1.0 else -1.0) && Multiplicative(TurnTable(4, s))
    ensures ValidTable(TurnTable(4, s), inverse)
  {
    var t := TurnTable(4, s);
    assert t[0] == One && t[1] == Cpx(0.0, s) && t[2] == Cpx(-1.0, 0.0) && t[3] == Cpx(0.0, -s);
    hide Multiplicative, TurnTable;
  }

  /** k quarters of a turn, in the direction of s. */
  function QuarterTurns(s: real, k: int): Cpx {
    if k == 0 then One else if k == 1 then Cpx(0.0, s) else if k == 2 then Cpx(-1.0, 0.0) else Cpx(0.0, -s)
  }

  function TurnTable(n: nat, s: real): (tw: seq<Cpx>)
    requires n == 1 || n == 2 || n == 4
    ensures |tw| == n
  {
    seq(n, k => QuarterTurns(s, k * (4 / n)))
  }

  lemma TurnsMultiply(n: nat, s: real)
    requires (n == 1 || n == 2 || n == 4) && (s == 1.0 || s == -1.0)
    ensures Multiplicative(TurnTable(n, s))
  {
    hide Mul, QuarterTurns;
    var tw, d := TurnTable(n, s), 4 / n;
    forall i, j | 0 <= i < n && 0 <= j < n
      ensures Mul(tw[i], tw[j]) == tw[(i + j) % n]
    {
      var k := if i + j < n then i + j else i + j - n;
      assert (i + j) % n == k;
      TurnsAdd(s, i * d, j * d);
      assert tw[i] == QuarterTurns(s, i * d) && tw[j] == QuarterTurns(s, j * d) && tw[k] == QuarterTurns(s, k * d);
    }
  }

  lemma TurnsAdd(s: real, i: int, j: int)
    requires (s == 1.0 || s == -1.0) && 0 <= i < 4 && 0 <= j < 4
    ensures Mul(QuarterTurns(s, i), QuarterTurns(s, j)) == QuarterTurns(s, if i + j < 4 then i + j else i + j - 4)
  {
    hide Mul;
    TurnTimes(s, i, QuarterTurns(s, j));
  }

  /** A quarter turn moves the parts around. */
  lemma TurnTimes(s: real, i: int, x: Cpx)
    requires (s == 1.0 || s == -1.0) && 0 <= i < 4
    ensures Mul(QuarterTurns(s, i), x)
         == if i == 0 then x
            else if i == 2 then Cpx(-x.r, -x.i)
            else if (i == 1) == (s == 1.0) then Cpx(-x.i, x.r)
            else Cpx(x.i, -x.r)
  {
    if i == 0 {
      assert Mul(One, x) == Cpx(1.0 * x.r - 0.0 * x.i, 1.0 * x.i + 0.0 * x.r);
    }
  }

  /** The table read cyclically. */
  function W(tw: seq<Cpx>, e: int): Cpx {
    if |tw| == 0 then Zero else tw[e % |tw|]
  }

  /** Signal value, zero outside the signal. */
  function At(f: seq<Cpx>, i: int): Cpx {
    if 0 <= i < |f| then f[i] else Zero
  }

  /** Bin k of the discrete Fourier transform of count samples taken from f at
      base, base + stride, ..., with twiddle exponents multiplied by t. */
  function DftFrom(tw: seq<Cpx>, t: int, f: seq<Cpx>, base: int, stride: int, count: nat, k: int): Cpx {
    Sum(count, j => Mul(At(f, base + stride * j), W(tw, t * j * k)))
  }

  /** The plain definition: X[k] is the sum over j of f[j * stride] w^(jk). */
  function Dft(tw: seq<Cpx>, f: seq<Cpx>, stride: int, k: int): Cpx {
    Sum(|tw|, j => Mul(At(f, stride * j), W(tw, j * k)))
  }

  lemma ModShift(x: int, n: int, c: int)
    requires n > 0
    ensures (x + n * c) % n == x % n
  {
    assert x + n * c == n * (x / n + c) + x % n;
    ModUnique(x + n * c, n, x / n + c, x % n);
  }

  lemma WMul(tw: seq<Cpx>, inverse: bool, a: int, b: int)
    requires ValidTable(tw, inverse)
    ensures Mul(W(tw, a), W(tw, b)) == W(tw, a + b)
  {
    hide *;
    NotEmpty(tw, inverse);
    var i, j, k := a % |tw|, b % |tw|, (a + b) % |tw|;
    AddMod(a, b, |tw|);
    WAt(tw, a, i);
    WAt(tw, b, j);
    WAt(tw, a + b, k);
    TableMul(tw, inverse, i, j);
  }

  lemma NotEmpty(tw: seq<Cpx>, inverse: bool)
    requires ValidTable(tw, inverse)
    ensures |tw| > 0
  {
  }

  lemma WAt(tw: seq<Cpx>, a: int, i: int)
    requires |tw| > 0 && i == a % |tw|
    ensures W(tw, a) == tw[i]
  {
  }

  lemma TableMul(tw: seq<Cpx>, inverse: bool, i: int, j: int)
    requires ValidTable(tw, inverse) && 0 <= i < |tw| && 0 <= j < |tw|
    ensures Mul(tw[i], tw[j]) == tw[(i + j) % |tw|]
  {
    hide Mul, OnUnitCircle;
  }

  lemma AddMod(a: int, b: int, n: int)
    requires n > 0
    ensures (a % n + b % n) % n == (a + b) % n
  {
    DivMod(a, n);
    DivMod(b, n);
    DivMod(a % n + b % n, n);
    AddParts(a, b, n, a / n, a % n, b / n, b % n, (a % n + b % n) / n, (a % n + b % n) % n);
  }

  lemma DivMod(a: int, n: int)
    requires n > 0
    ensures a == n * (a / n) + a % n && 0 <= a % n < n
  {
  }

  lemma AddParts(a: int, b: int, n: int, q: int, r: int, q': int, r': int, s: int, k: int)
    requires a == n * q + r && b == n * q' + r' && r + r' == n * s + k && 0 <= k < n
    ensures (a + b) % n == k
  {
    Gather(n, q, q', s);
    ModUnique(a + b, n, q + q' + s, k);
  }

  lemma Gather(n: int, x: int, y: int, z: int)
    ensures n * (x + y + z) == n * x + n * y + n * z
  {
  }

  lemma WShift(tw: seq<Cpx>, a: int, c: int)
    requires |tw| > 0
    ensures W(tw, a + |tw| * c) == W(tw, a)
  {
    ModShift(a, |tw|, c);
  }

  lemma WConj(tw: seq<Cpx>, inverse: bool, a: int)
    requires ValidTable(tw, inverse)
    ensures W(tw, -a) == Conj(W(tw, a))
  {
    hide Mul;
    var n := |tw|;
    var r := a % n;
    assert -a == (n - r) + n * (-(a / n) - 1);
    ModShift(n - r, n, -(a / n) - 1);
    if r == 0 {
      ModUnique(n, n, 1, 0);
    } else {
      ModUnique(n - r, n, 0, n - r);
      assert Conj(tw[r]) == tw[n - r];
    }
  }

  lemma WUnit(tw: seq<Cpx>, inverse: bool, a: int)
    requires ValidTable(tw, inverse)
    ensures Mul(W(tw, a), Conj(W(tw, a))) == One
  {
    hide Mul, Conj;
    WMul(tw, inverse, a, -a);
    WConj(tw, inverse, a);
  }

  lemma WPrimitive(tw: seq<Cpx>, inverse: bool, a: int)
    requires ValidTable(tw, inverse) && a % |tw| != 0
    ensures W(tw, a) != One
  {
  }

  /** Half a turn is -1. */
  lemma HalfTurn(tw: seq<Cpx>, inverse: bool)
    requires ValidTable(tw, inverse) && |tw| % 2 == 0
    ensures W(tw, |tw| / 2) == Cpx(-1.0, 0.0)
  {
    var a := |tw| / 2;
    WPrimitive(tw, inverse, a);
    WMul(tw, inverse, a, a);
    assert W(tw, a + a) == One by { hide Mul, Multiplicative, OnUnitCircle; }
    hide *;
    RootOfOne(W(tw, a));
  }

  lemma RootOfOne(w: Cpx)
    requires Mul(w, w) == One && w != One
    ensures w == Cpx(-1.0, 0.0)
  {
    RealZeroProduct(2.0 * w.r, w.i);
    SquarePositive(w.i);
    assert (w.r - 1.0) * (w.r + 1.0) == w.r * w.r - 1.0;
    RealZeroProduct(w.r - 1.0, w.r + 1.0);
  }

  /** A quarter turn is -i forwards and +i backwards. */
  lemma QuarterTurn(tw: seq<Cpx>, inverse: bool)
    requires ValidTable(tw, inverse) && |tw| % 4 == 0
    ensures W(tw, |tw| / 4) == Cpx(0.0, if inverse then 1.0 else -1.0)
  {
    var a := |tw| / 4;
    WMul(tw, inverse, a, a);
    assert a + a == |tw| / 2;
    HalfTurn(tw, inverse);
    ModUnique(a, |tw|, 0, a);
    assert W(tw, a) == tw[a];
    hide *;
    RootOfMinusOne(W(tw, a));
  }

  lemma RootOfMinusOne(w: Cpx)
    requires Mul(w, w) == Cpx(-1.0, 0.0)
    ensures w == Cpx(0.0, 1.0) || w == Cpx(0.0, -1.0)
  {
    RealZeroProduct(2.0 * w.r, w.i);
    SquarePositive(w.r);
    assert (w.i - 1.0) * (w.i + 1.0) == w.i * w.i - 1.0;
    RealZeroProduct(w.i - 1.0, w.i + 1.0);
  }

  /** The real part of a third of a turn is -1/2. */
  lemma ThirdTurn(tw: seq<Cpx>, inverse: bool)
    requires ValidTable(tw, inverse) && |tw| % 3 == 0
    ensures W(tw, |tw| / 3).r == -0.5
  {
    var a := |tw| / 3;
    WPrimitive(tw, inverse, a);
    WMul(tw, inverse, a, a);
    WConj(tw, inverse, a);
    WShift(tw, -a, 1);
    assert a + a == -a + |tw| * 1;
    WUnit(tw, inverse, a);
    hide *;
    CubeRootOfOne(W(tw, a));
  }

  lemma CubeRootOfOne(w: Cpx)
    requires Mul(w, w) == Conj(w) && Mul(w, Conj(w)) == One && w != One
    ensures w.r == -0.5
  {
    assert w.i * (2.0 * w.r + 1.0) == 0.0;
    RealZeroProduct(w.i, 2.0 * w.r + 1.0);
    assert w.i == 0.0 ==> w.r == 1.0;
  }
}
