/** Divisibility facts behind the factoriser of kiss_fft.c. */
module Primes {
  import opened IntArith
  import opened Twiddles

  ghost predicate Prime(d: int) {
    d >= 2 && forall e :: 2 <= e < d ==> d % e != 0
  }

  /** n has no divisor among 2, ..., p-1. */
  ghost predicate NoDivisorBelow(n: int, p: int) {
    forall e :: 2 <= e < p ==> n % e != 0
  }

  /** No prime above 17 divides n. */
  ghost predicate Smooth(n: int) {
    forall d :: Prime(d) && n % d == 0 ==> d <= 17
  }

  lemma MultipleMod(d: int, k: int)
    requires d > 0
    ensures (d * k) % d == 0
  {
    ModUnique(d * k, d, k, 0);
  }

  lemma Divides(d: int, a: int) returns (k: int)
    requires d > 0 && a % d == 0
    ensures a == d * k
  {
    k := a / d;
  }

  lemma DividesProduct(d: int, a: int, b: int)
    requires d > 0 && a % d == 0
    ensures (a * b) % d == 0
  {
    var k := Divides(d, a);
    assert a * b == d * (k * b);
    MultipleMod(d, k * b);
  }

  lemma DividesDifference(d: int, a: int, b: int)
    requires d > 0 && a % d == 0 && b % d == 0
    ensures (a - b) % d == 0
  {
    var j := Divides(d, a);
    var k := Divides(d, b);
    assert a - b == d * (j - k);
    MultipleMod(d, j - k);
  }

  /** Taking multiples of d off a factor keeps the product one. */
  lemma LessMultiples(d: int, a: int, b: int, q: int, r: int)
    requires d > 0 && a == d * q + r && (a * b) % d == 0
    ensures (r * b) % d == 0
  {
    MultipleMod(d, q * b);
    SplitTimes(d, q, r, b);
    DividesDifference(d, a * b, d * (q * b));
  }

  lemma RestOfMultiples(d: int, a: int, b: int, q: int, r: int)
    requires d > 0 && d == a * q + r && (a * b) % d == 0
    ensures (r * b) % d == 0
  {
    MultipleMod(d, b);
    DividesProduct(d, a * b, q);
    SplitTimes(a, q, r, b);
    Regrouped(a, b, q);
    DividesDifference(d, d * b, a * b * q);
  }

  lemma SplitTimes(d: int, q: int, r: int, b: int)
    ensures (d * q + r) * b == d * (q * b) + r * b
  {
  }

  lemma Regrouped(a: int, b: int, q: int)
    ensures a * b * q == a * (q * b)
  {
  }

  /** Euclid's lemma: a prime dividing a product divides a factor. */
  lemma {:induction false} Euclid(d: int, a: int, b: int)
    requires Prime(d) && a >= 1 && (a * b) % d == 0
    ensures a % d == 0 || b % d == 0
    decreases a
  {
    if a >= d {
      var r := a % d;
      if r != 0 {
        LessMultiples(d, a, b, a / d, r);
        Euclid(d, r, b);
        ModUnique(r, d, 0, r);
      }
    } else if a > 1 {
      var r := d % a;
      assert r != 0;
      RestOfMultiples(d, a, b, d / a, r);
      Euclid(d, r, b);
      ModUnique(r, d, 0, r);
    } else {
      assert a * b == b;
    }
  }

  /** Every number above 1 has a prime divisor: its least divisor. */
  lemma {:induction false} PrimeDivisor(n: int, c: int) returns (d: int)
    requires 2 <= c <= n && NoDivisorBelow(n, c)
    ensures Prime(d) && n % d == 0 && c <= d <= n
    decreases n - c
  {
    if n % c == 0 {
      d := c;
      forall e | 2 <= e < c
        ensures c % e != 0
      {
        if c % e == 0 {
          var k := Divides(c, n);
          DividesProduct(e, c, k);
        }
      }
    } else {
      ModUnique(n, n, 1, 0);
      d := PrimeDivisor(n, c + 1);
    }
  }

  /** Without divisors up to its square root a number is prime. */
  lemma NoSmallDivisors(n: int, c: int)
    requires 2 <= c && n >= 2 && NoDivisorBelow(n, c) && c * c > n
    ensures Prime(n)
  {
    forall e | 2 <= e < n
      ensures n % e != 0
    {
      NoDivisor(n, c, e);
    }
  }

  lemma NoDivisor(n: int, c: int, e: int)
    requires 2 <= c && NoDivisorBelow(n, c) && c * c > n && 2 <= e < n
    ensures n % e != 0
  {
    if n % e == 0 {
      var k := Divides(e, n);
      Cofactor(e, k, n);
      MultipleMod(k, e);
      if k >= c && e >= c {
        ProductGrows(e, k, c);
      }
      assert false;
    }
  }

  lemma Cofactor(e: int, k: int, n: int)
    requires n == e * k && 2 <= e < n
    ensures n == k * e && 2 <= k < n
  {
    if k <= 0 {
      NonnegativeTimes(e, -k);
    } else if k >= n {
      NonnegativeTimes(e - 1, k - 1);
    }
  }

  lemma ProductGrows(a: int, b: int, c: int)
    requires a >= c >= 0 && b >= c
    ensures a * b >= c * c
  {
    assert a * b >= c * b && c * b >= c * c;
  }

  /** Oddness rules out even divisors. */
  lemma OddSkip(n: int, p: int)
    requires p >= 3 && p % 2 == 1 && NoDivisorBelow(n, p) && n % p != 0
    ensures NoDivisorBelow(n, p + 2)
  {
    assert n % 2 != 0;
    forall e | 2 <= e < p + 2
      ensures n % e != 0
    {
      if e == p + 1 && n % e == 0 {
        var k := Divides(e, n);
        var h := e / 2;
        assert n == 2 * (h * k) by { assert e == 2 * h; }
        MultipleMod(2, h * k);
        assert false;
      }
    }
  }
}
