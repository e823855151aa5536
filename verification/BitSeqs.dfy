/** Bit strings, most significant bit first, and the numbers they spell. */
module BitSeqs {
  import opened IntArith

  /** The low n bits of v, most significant first. */
  function BitsOf(v: int, n: nat): (b: seq<bool>)
    ensures |b| == n
    decreases n
  {
    if n == 0 then [] else BitsOf(v / 2, n - 1) + [v % 2 == 1]
  }

  function ValueOf(b: seq<bool>): nat {
    if b == [] then 0 else 2 * ValueOf(b[..|b| - 1]) + (if b[|b| - 1] then 1 else 0)
  }

  lemma {:induction false} ValueBound(b: seq<bool>)
    ensures ValueOf(b) < Pow2(|b|)
  {
    if b != [] {
      ValueBound(b[..|b| - 1]);
    }
  }

  lemma DivMod(v: int, p: int)
    requires p > 0
    ensures 2 * (v / 2 % p) + v % 2 == v % (2 * p)
  {
    var q, r := v / 2 / p, v / 2 % p;
    assert v == 2 * (v / 2) + v % 2;
    assert v / 2 == p * q + r;
    assert v == (2 * p) * q + (2 * r + v % 2) by {
      assert 2 * (p * q) == (2 * p) * q;
    }
    ModUnique(v, 2 * p, q, 2 * r + v % 2);
  }

  /** Writing n bits and reading them back gives the value modulo 2^n. */
  lemma {:induction false} ValueOfBits(v: int, n: nat)
    ensures ValueOf(BitsOf(v, n)) == v % Pow2(n)
    decreases n
  {
    if n > 0 {
      var b := BitsOf(v, n);
      assert b[..n - 1] == BitsOf(v / 2, n - 1);
      ValueOfBits(v / 2, n - 1);
      DivMod(v, Pow2(n - 1));
    }
  }

  /** Reading bits and writing the value gives back the bits. */
  lemma {:induction false} BitsOfValue(b: seq<bool>)
    ensures BitsOf(ValueOf(b), |b|) == b
  {
    if b != [] {
      BitsOfValue(b[..|b| - 1]);
      assert b == b[..|b| - 1] + [b[|b| - 1]];
    }
  }

  /** The leading bit of the n-bit form. */
  lemma {:induction false} BitTop(v: int, n: nat)
    requires n > 0
    ensures BitsOf(v, n)[0] == (v / Pow2(n - 1) % 2 == 1)
    decreases n
  {
    if n > 1 {
      BitTop(v / 2, n - 1);
      DivTwice(v, Pow2(n - 2));
    }
  }

  lemma DivTwice(v: int, p: int)
    requires p > 0
    ensures v / 2 / p == v / (2 * p)
  {
    var q, r := v / 2 / p, v / 2 % p;
    assert v == 2 * (v / 2) + v % 2;
    assert v / 2 == p * q + r;
    assert v == (2 * p) * q + (2 * r + v % 2) by {
      assert 2 * (p * q) == (2 * p) * q;
    }
    ModUnique(v, 2 * p, q, 2 * r + v % 2);
  }

  /** Dropping the leading bit of an n-bit form. */
  lemma {:induction false} BitsHead(v: int, n: nat)
    requires n > 0
    ensures BitsOf(v, n)[1..] == BitsOf(v, n - 1)
    decreases n
  {
    if n > 1 {
      BitsHead(v / 2, n - 1);
      assert BitsOf(v, n)[1..] == BitsOf(v / 2, n - 1)[1..] + [v % 2 == 1];
    }
  }

  /** Appending one more bit to what was read so far. */
  lemma ValueSnoc(b: seq<bool>, x: bool)
    ensures ValueOf(b + [x]) == 2 * ValueOf(b) + (if x then 1 else 0)
  {
    assert (b + [x])[..|b|] == b;
  }

  lemma OneBit(u: seq<bool>)
    requires |u| == 1
    ensures ValueOf(u) == if u[0] then 1 else 0
  {
    assert ValueOf(u[..0]) == 0;
  }
}
