// What the sieve of benchmarks/primes.go rests on: prime factors, Euclid's lemma, counts of prime divisors.
module NumberTheory {
  import opened Logarithms

  ghost function Multiple(d: nat, k: nat): nat {
    d * k
  }

  ghost predicate Divides(d: nat, n: nat) {
    exists k: nat :: Multiple(d, k) == n
  }

  ghost predicate IsPrime(p: nat) {
    p >= 2 && forall d: nat :: 2 <= d < p ==> !Divides(d, p)
  }

  lemma MultipleDivides(d: nat, k: nat, n: nat)
    requires n == d * k
    ensures Divides(d, n)
  {
    assert Multiple(d, k) == n;
  }

  lemma Quotient(d: nat, n: nat) returns (k: nat)
    requires Divides(d, n)
    ensures n == d * k
    ensures n > 0 ==> 0 < d <= n && 0 < k <= n
  {
    k :| Multiple(d, k) == n;
    if n > 0 {
      assert d > 0 && k > 0;
      assert d * k >= d * 1 && d * k >= 1 * k;
    }
  }

  lemma DividesTransitive(a: nat, b: nat, c: nat)
    requires Divides(a, b) && Divides(b, c)
    ensures Divides(a, c)
  {
    var k := Quotient(a, b);
    var m := Quotient(b, c);
    assert a * (k * m) == a * k * m;
    MultipleDivides(a, k * m, c);
  }

  ghost predicate NoDivisorBelow(c: nat, p: nat) {
    forall d: nat :: 2 <= d < p ==> !Divides(d, c)
  }

  lemma SmallestDivisor(c: nat) returns (p: nat)
    requires c >= 2
    ensures 2 <= p <= c && Divides(p, c) && NoDivisorBelow(c, p)
  {
    p := 2;
    MultipleDivides(c, 1, c);
    while !Divides(p, c)
      invariant 2 <= p <= c && NoDivisorBelow(c, p)
      decreases c - p
    {
      p := p + 1;
    }
  }

  lemma SmallestDivisorIsPrime(c: nat, p: nat)
    requires 2 <= p && Divides(p, c) && NoDivisorBelow(c, p)
    ensures IsPrime(p)
  {
    forall d: nat | 2 <= d < p
      ensures !Divides(d, p)
    {
      if Divides(d, p) { DividesTransitive(d, p, c); }
    }
  }

  lemma SmallestDivisorSquared(c: nat, p: nat, e: nat)
    requires 2 <= p < c == p * e && NoDivisorBelow(c, p)
    ensures p * p <= c
  {
    MultipleDivides(e, p, c);
    assert e >= 2;
    assert p * e >= p * p;
  }

  /** Every number from 2 on has a prime factor; a composite one has one no larger than its square root. */
  lemma SmallPrimeFactor(c: nat) returns (p: nat)
    requires c >= 2
    ensures IsPrime(p) && Divides(p, c)
    ensures !IsPrime(c) ==> p < c && p * p <= c
  {
    p := SmallestDivisor(c);
    SmallestDivisorIsPrime(c, p);
    var e := Quotient(p, c);
    if p < c { SmallestDivisorSquared(c, p, e); }
  }

  lemma FactorNotNegative(q: nat, x: int)
    requires q * x >= 0 && q > 0
    ensures x >= 0
  {
  }

  lemma RemainderKeepsDivisor(q: nat, a: nat, b: nat, k: nat, r: nat, m: nat)
    requires q == a * k + r && a * b == q * m && q > 0
    ensures Divides(q, r * b)
  {
    calc {
      r * b;
      q * b - (a * k) * b;
      q * b - (a * b) * k;
      q * b - (q * m) * k;
      q * (b - m * k);
    }
    FactorNotNegative(q, b - m * k);
    MultipleDivides(q, b - m * k, r * b);
  }

  /** Euclid's lemma for a factor below the prime, by the division q == a * k + r. */
  lemma {:induction false} EuclidBelow(q: nat, a: nat, b: nat)
    requires IsPrime(q) && 1 <= a < q && Divides(q, a * b)
    ensures Divides(q, b)
    decreases a
  {
    if a > 1 {
      var k, r := q / a, q % a;
      var m := Quotient(q, a * b);
      if r == 0 {
        MultipleDivides(a, k, q);
      }
      RemainderKeepsDivisor(q, a, b, k, r, m);
      EuclidBelow(q, r, b);
    }
  }

  lemma Euclid(q: nat, a: nat, b: nat)
    requires IsPrime(q) && Divides(q, a * b)
    ensures Divides(q, a) || Divides(q, b)
  {
    var k, r := a / q, a % q;
    if r == 0 {
      MultipleDivides(q, k, a);
    } else {
      var m := Quotient(q, a * b);
      calc {
        r * b;
        a * b - (q * k) * b;
        q * m - q * (k * b);
        q * (m - k * b);
      }
      FactorNotNegative(q, m - k * b);
      MultipleDivides(q, m - k * b, r * b);
      EuclidBelow(q, r, b);
    }
  }

  ghost function PrimeDivisors(c: nat): set<nat> {
    set p: nat | 2 <= p <= c && IsPrime(p) && Divides(p, c)
  }

  lemma OtherPrimesStay(c: nat, p: nat, e: nat)
    requires c == p * e > 0 && IsPrime(p)
    ensures PrimeDivisors(c) - {p} <= PrimeDivisors(e)
  {
    forall q | q in PrimeDivisors(c) && q != p
      ensures q in PrimeDivisors(e)
    {
      Euclid(q, p, e);
      if Divides(q, p) {
        var k := Quotient(q, p);
      }
      var m := Quotient(q, e);
    }
  }

  lemma Halves(p: nat, e: nat)
    requires p >= 2 && e > 0
    ensures 2 * e <= p * e
  {
  }

  lemma {:induction false} CardinalityMonotone<T>(a: set<T>, b: set<T>)
    requires a <= b
    ensures |a| <= |b|
  {
    if a != {} {
      var x :| x in a;
      CardinalityMonotone(a - {x}, b - {x});
    }
  }

  /** Distinct prime divisors multiply: a positive number has at most log2 of itself many. */
  lemma {:induction false} FewPrimeDivisors(c: nat)
    requires c > 0
    ensures Pow2(|PrimeDivisors(c)|) <= c
    decreases c
  {
    if PrimeDivisors(c) != {} {
      var p :| p in PrimeDivisors(c);
      var e := Quotient(p, c);
      Halves(p, e);
      OtherPrimesStay(c, p, e);
      CardinalityMonotone(PrimeDivisors(c) - {p}, PrimeDivisors(e));
      FewPrimeDivisors(e);
      Pow2Monotone(|PrimeDivisors(c)| - 1, |PrimeDivisors(e)|);
    }
  }

  ghost function PrimesUpTo(n: nat): set<nat> {
    set p: nat | 2 <= p <= n && IsPrime(p)
  }
}
