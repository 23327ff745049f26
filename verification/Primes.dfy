/** The number theory behind a Maglev table: trial division, and why a prime table
    size makes every backend's probe sequence visit every slot
    (internal/maglev/table.go). */
module Primes {
  ghost predicate Divides(d: int, n: int) {
    exists k: int :: d * k == n
  }

  ghost predicate Prime(n: int) {
    n >= 2 && forall d | 1 < d < n :: !Divides(d, n)
  }

  lemma ModDivides(d: int, n: int)
    requires d > 0
    ensures n % d == 0 <==> Divides(d, n)
  {
    if n % d == 0 {
      assert d * (n / d) == n;
    }
    if k :| d * k == n {
      QuotientUnique(n, d, k, 0);
    }
  }

  lemma QuotientUnique(n: int, d: int, q: int, r: int)
    requires d > 0 && n == d * q + r && 0 <= r < d
    ensures n / d == q && n % d == r
  {
    var e := n / d - q;
    assert d * e == r - n % d;
    assert e >= 1 ==> d * e >= d;
    assert e <= -1 ==> d * e <= -d;
  }

  /** A composite number has a divisor whose square does not exceed it. */
  lemma SmallDivisor(n: int, d: int) returns (e: int)
    requires 1 < d < n && Divides(d, n)
    ensures 1 < e < n && Divides(e, n) && e * e <= n
  {
    var k :| d * k == n;
    assert k <= 1 ==> d * k <= d;
    assert d * k >= 2 * k;
    if d <= k {
      e := d;
      Scale(d, d, k);
    } else {
      e := k;
      assert k * d == n;
      Scale(k, k, d);
    }
  }

  lemma Scale(a: int, b: int, c: int)
    requires a >= 0 && b <= c
    ensures a * b <= a * c
  {
  }

  lemma SquareBelow(f: int, d: int, n: int)
    requires f * f <= n < d * d && d > 0
    ensures f < d
  {
    assert f >= d ==> f * f >= d * d;
  }

  /** Trial division up to the square root decides. */
  lemma TrialDivision(n: int, d: int)
    requires n >= 2 && d > 1 && d * d > n && forall e | 1 < e < d :: !Divides(e, n)
    ensures Prime(n)
  {
    forall e | 1 < e < n
      ensures !Divides(e, n)
    {
      if Divides(e, n) {
        var f := SmallDivisor(n, e);
        SquareBelow(f, d, n);
      }
    }
  }

  /** An even number does not divide an odd one. */
  lemma OddDivisor(n: int, d: int)
    requires n % 2 == 1 && d % 2 == 0
    ensures !Divides(d, n)
  {
    forall k: int
      ensures d * k != n
    {
      assert d * k == 2 * (d / 2 * k);
    }
  }

  method IsPrime(n: int) returns (b: bool)
    ensures b <==> Prime(n)
  {
    if n < 2 {
      return false;
    }
    if n % 2 == 0 {
      assert 2 * (n / 2) == n && Divides(2, n);
      return n == 2;
    }
    var d := 3;
    while d * d <= n
      invariant d >= 3 && d % 2 == 1
      invariant forall e | 1 < e < d :: !Divides(e, n)
      decreases n - d
    {
      assert d * d >= 3 * d;
      ModDivides(d, n);
      if n % d == 0 {
        return false;
      }
      OddDivisor(n, d + 1);
      d := d + 2;
    }
    TrialDivision(n, d);
    return true;
  }

  // ---- Probe sequences

  lemma NoSmallMultiple(p: int, d: int)
    requires 0 < d < p
    ensures !Divides(p, d)
  {
    forall k: int
      ensures p * k != d
    {
      assert k >= 1 ==> p * k >= p;
      assert k <= 0 ==> p * k <= 0;
    }
  }

  /** A prime that divides a product with a smaller factor divides the other. */
  lemma {:induction false} Euclid(p: int, a: int, b: int)
    requires Prime(p) && 0 < a < p && Divides(p, a * b)
    ensures Divides(p, b)
    decreases a
  {
    if a > 1 {
      var q, r := p / a, p % a;
      assert p == a * q + r;
      assert r != 0 by {
        if r == 0 {
          assert Divides(a, p);
        }
      }
      var k :| p * k == a * b;
      assert r * b == p * (b - q * k) by {
        assert r * b == p * b - q * (a * b);
        assert q * (p * k) == p * (q * k);
        assert p * b - p * (q * k) == p * (b - q * k);
      }
      Euclid(p, r, b);
    } else {
      assert a * b == b;
    }
  }
}
