// benchmarks/primes.go: the sieve of Eratosthenes, its exact writes and its work.
module Primes {
  import opened Logarithms
  import opened NumberTheory

  const SIZE_MEDIUM := 10_000_000

  /** The round for i strikes c out: c is one of i * i, i * i + i, ... */
  ghost predicate Strikes(i: nat, c: nat) {
    i * i <= c && Divides(i, c)
  }

  /** The primes below k that strike c out. */
  ghost function Strikers(c: nat, k: nat): set<nat> {
    set p: nat | 2 <= p < k && IsPrime(p) && Strikes(p, c)
  }

  lemma StrikersGrow(c: nat, i: nat)
    requires i >= 2
    ensures IsPrime(i) && Strikes(i, c) ==> |Strikers(c, i + 1)| == |Strikers(c, i)| + 1
    ensures !(IsPrime(i) && Strikes(i, c)) ==> Strikers(c, i + 1) == Strikers(c, i)
  {
    if IsPrime(i) && Strikes(i, c) {
      assert Strikers(c, i + 1) == Strikers(c, i) + {i};
    }
  }

  lemma NoStrikersBelowTwo(c: nat)
    ensures Strikers(c, 2) == {}
  {
  }

  lemma SquareMonotone(a: nat, b: nat)
    requires a <= b
    ensures a * a <= b * b
  {
  }

  lemma SquareBelow(p: nat, k: nat)
    requires p * p < k * k
    ensures p < k
  {
  }

  /** Once the strikers up to the square root of c are known, c is unstruck exactly when it is prime. */
  lemma UnstruckIsPrime(c: nat, k: nat)
    requires c >= 2 && (k == c || k * k > c)
    ensures |Strikers(c, k)| == 0 <==> IsPrime(c)
  {
    if IsPrime(c) {
      assert c * c >= 2 * c;
      forall p: nat | 2 <= p < k && IsPrime(p)
        ensures !Strikes(p, c)
      {
        if Divides(p, c) { var e := Quotient(p, c); }
      }
      assert Strikers(c, k) == {};
    } else {
      var p := SmallPrimeFactor(c);
      if k != c { SquareBelow(p, k); }
      assert p in Strikers(c, k);
    }
  }

  /** Strikers above the square root do not exist. */
  lemma StrikersComplete(c: nat, k: nat)
    requires k * k > c
    ensures Strikers(c, k) == Strikers(c, c + 1)
  {
  }

  lemma FewStrikers(c: nat, k: nat)
    requires c > 0
    ensures |Strikers(c, k)| <= Log2(c)
  {
    forall p | p in Strikers(c, k)
      ensures p in PrimeDivisors(c)
    {
      var e := Quotient(p, c);
    }
    CardinalityMonotone(Strikers(c, k), PrimeDivisors(c));
    FewPrimeDivisors(c);
    Log2AtLeast(|PrimeDivisors(c)|, c);
  }

  ghost function Sum(w: seq<nat>): nat {
    if w == [] then 0 else Sum(w[..|w| - 1]) + w[|w| - 1]
  }

  lemma {:induction false} SumIncrement(w: seq<nat>, c: nat)
    requires c < |w|
    ensures Sum(w[c := w[c] + 1]) == Sum(w) + 1
  {
    var u := w[c := w[c] + 1];
    if c < |w| - 1 {
      SumIncrement(w[..|w| - 1], c);
      assert u[..|w| - 1] == w[..|w| - 1][c := w[c] + 1];
    } else {
      assert u[..|w| - 1] == w[..|w| - 1];
    }
  }

  lemma {:induction false} SumBounded(w: seq<nat>, bound: nat)
    requires |w| > 0 ==> w[0] == 0
    requires forall c :: 0 < c < |w| ==> w[c] <= bound
    ensures |w| > 0 ==> Sum(w) <= (|w| - 1) * bound
  {
    if |w| > 1 {
      SumBounded(w[..|w| - 1], bound);
      assert (|w| - 2) * bound + bound == (|w| - 1) * bound;
    } else if |w| == 1 {
      assert w[..0] == [];
    }
  }

  lemma {:induction false} SumOfZeros(w: seq<nat>)
    requires forall c :: 0 <= c < |w| ==> w[c] == 0
    ensures Sum(w) == 0
  {
    if w != [] { SumOfZeros(w[..|w| - 1]); }
  }

  lemma Spaced(i: nat, k: nat, m: nat)
    requires k < m
    ensures i * k + i <= i * m
  {
    var d := m - k;
    assert i * (k + d) == i * k + i * d;
    assert i * d >= i;
  }

  /** The multiples of i are spaced i apart. */
  lemma NextMultiple(i: nat, m: nat, c: nat)
    requires i > 0 && i * m <= c < i * m + i
    ensures Divides(i, c) <==> c == i * m
  {
    if Divides(i, c) {
      var k := Quotient(i, c);
      if k > m { Spaced(i, m, k); }
      if k < m { Spaced(i, k, m); }
    }
    if c == i * m { MultipleDivides(i, m, c); }
  }

  /** How often each cell has been written once all rounds below k are done. */
  ghost predicate WrittenBelow(writes: seq<nat>, k: nat) {
    forall c :: 0 <= c < |writes| ==> writes[c] == |Strikers(c, k)|
  }

  /** A cell is marked exactly if it has been written. */
  ghost predicate MarksWritten(sieve: array<bool>, writes: seq<nat>)
    reads sieve
  {
    && sieve.Length == |writes|
    && forall c :: 0 <= c < |writes| ==> (sieve[c] <==> writes[c] > 0)
  }

  /** The inner loop for i: writes every cell the round strikes, once. */
  method Strike(sieve: array<bool>, n: nat, i: nat, ghost before: seq<nat>)
    returns (ghost writes: seq<nat>, ghost iterations: nat, ghost peak: nat)
    requires sieve.Length == n + 1 && i >= 2 && i * i <= n
    requires MarksWritten(sieve, before)
    modifies sieve
    ensures MarksWritten(sieve, writes)
    ensures forall c :: 0 <= c <= n ==> writes[c] == before[c] + if Strikes(i, c) then 1 else 0
    ensures Sum(writes) == Sum(before) + iterations
    ensures peak <= n + i
  {
    hide Divides, Sum;
    writes, iterations, peak := before, 0, i * i;
    var j := i * i;
    ghost var m := i;
    while j <= n
      invariant j == i * m && i <= m
      invariant j <= n + i && peak <= n + i
      invariant MarksWritten(sieve, writes) && Sum(writes) == Sum(before) + iterations
      invariant forall c :: 0 <= c <= n ==> writes[c] == before[c] + if Strikes(i, c) && c < j then 1 else 0
      decreases n + i - j
    {
      MultipleDivides(i, m, j);
      forall c: nat | j <= c < j + i
        ensures Divides(i, c) <==> c == j
      {
        NextMultiple(i, m, c);
      }
      SumIncrement(writes, j);
      iterations := iterations + 1;
      sieve[j] := true;
      writes := writes[j := writes[j] + 1];
      j, m := j + i, m + 1;
      peak := if peak < j then j else peak;
    }
  }

  /** One round of the outer loop: strikes the multiples of i if i is still unmarked, that is, prime. */
  method Round(sieve: array<bool>, n: nat, i: nat, ghost before: seq<nat>)
    returns (ghost writes: seq<nat>, ghost iterations: nat, ghost peak: nat)
    requires sieve.Length == n + 1 && i >= 2 && i * i <= n
    requires MarksWritten(sieve, before) && WrittenBelow(before, i)
    modifies sieve
    ensures MarksWritten(sieve, writes) && WrittenBelow(writes, i + 1)
    ensures Sum(writes) == Sum(before) + iterations
    ensures peak <= n + i
  {
    hide Strikes, Strikers, IsPrime;
    assert i <= n by { SquareMonotone(1, i); assert i * 1 <= i * i; }
    writes, iterations, peak := before, 0, i * i;
    UnstruckIsPrime(i, i);
    if !sieve[i] {
      writes, iterations, peak := Strike(sieve, n, i, before);
    }
    forall c: nat | c <= n
      ensures writes[c] == |Strikers(c, i + 1)|
    {
      StrikersGrow(c, i);
    }
  }

  /** What is left unmarked when the rounds are over, cell by cell. */
  lemma UnmarkedArePrime(n: nat, k: nat, writes: seq<nat>)
    requires |writes| == n + 1 && WrittenBelow(writes, k) && k * k > n
    ensures forall c :: 2 <= c <= n ==> (writes[c] == 0 <==> IsPrime(c))
    ensures forall c :: 0 <= c <= n ==> writes[c] == |Strikers(c, c + 1)|
  {
    hide Strikes, Strikers, IsPrime;
    forall c: nat | c <= n
      ensures c >= 2 ==> (writes[c] == 0 <==> IsPrime(c))
      ensures writes[c] == |Strikers(c, c + 1)|
    {
      if c >= 2 { UnstruckIsPrime(c, k); }
      StrikersComplete(c, k);
    }
  }

  /** Every cell is written at most log2 of its index times, and the inner loop runs n log2(n) times at most. */
  lemma WorkBounded(n: nat, writes: seq<nat>)
    requires n > 0 && |writes| == n + 1
    requires forall c :: 0 <= c <= n ==> writes[c] == |Strikers(c, c + 1)|
    ensures forall c :: 1 <= c <= n ==> writes[c] <= Log2(c)
    ensures Sum(writes) <= n * Log2(n)
  {
    forall c: nat | 1 <= c <= n
      ensures writes[c] <= Log2(c) <= Log2(n)
    {
      FewStrikers(c, c + 1);
      Log2AtLeast(Log2(c), n);
    }
    assert Strikers(0, 1) == {};
    SumBounded(writes, Log2(n));
  }

  lemma PrimesGrow(i: nat)
    requires i >= 1
    ensures IsPrime(i + 1) ==> |PrimesUpTo(i + 1)| == |PrimesUpTo(i)| + 1
    ensures !IsPrime(i + 1) ==> PrimesUpTo(i + 1) == PrimesUpTo(i)
    ensures PrimesUpTo(1) == {}
  {
    assert PrimesUpTo(1) == {} && i + 1 !in PrimesUpTo(i);
    hide IsPrime;
    if IsPrime(i + 1) { assert PrimesUpTo(i + 1) == PrimesUpTo(i) + {i + 1}; }
  }

  method CountUnmarked(sieve: array<bool>, n: nat) returns (count: nat)
    requires sieve.Length == n + 1 && n >= 2
    requires forall c :: 2 <= c <= n ==> (!sieve[c] <==> IsPrime(c))
    ensures count == |PrimesUpTo(n)|
  {
    hide IsPrime, PrimesUpTo;
    count := 0;
    PrimesGrow(1);
    for i := 2 to n + 1
      invariant count == |PrimesUpTo(i - 1)|
    {
      PrimesGrow(i - 1);
      if !sieve[i] {
        count := count + 1;
      }
    }
  }

  /**
   * The sieve on a cleared array, as Run and piReference both write it out. The ghosts record how often each cell
   * was written, how often the inner loop ran, and the largest value any loop variable or its square reached (the
   * counting loop's n + 1 included), root being the integer square root of n.
   */
  method Sieve(sieve: array<bool>, n: nat)
    returns (count: nat, ghost writes: seq<nat>, ghost iterations: nat, ghost peak: nat, ghost root: nat)
    requires n >= 2 && sieve.Length == n + 1
    requires forall c :: 0 <= c <= n ==> !sieve[c]
    modifies sieve
    ensures count == |PrimesUpTo(n)|
    ensures |writes| == n + 1 && forall c :: 0 <= c <= n ==> writes[c] == |Strikers(c, c + 1)|
    ensures forall c :: 1 <= c <= n ==> writes[c] <= Log2(c)
    ensures iterations == Sum(writes) <= n * Log2(n)
    ensures root * root <= n < (root + 1) * (root + 1) && n + 1 <= peak <= n + 2 * root + 1
  {
    hide Strikers, IsPrime, Log2, PrimesUpTo;
    writes := seq(n + 1, c => 0);
    SumOfZeros(writes);
    iterations, peak := 0, 4;
    var i := 2;
    forall c: nat | c <= n
      ensures |Strikers(c, 2)| == 0
    {
      NoStrikersBelowTwo(c);
    }
    while i * i <= n
      invariant i >= 2 && (i - 1) * (i - 1) <= n
      invariant MarksWritten(sieve, writes) && WrittenBelow(writes, i)
      invariant |writes| == n + 1 && iterations == Sum(writes)
      invariant i * i <= peak <= n + 2 * (i - 1) + 1
      decreases n - (i - 1) * (i - 1)
    {
      ghost var spent, high;
      writes, spent, high := Round(sieve, n, i, writes);
      iterations := iterations + spent;
      peak := if peak < high then high else peak;
      i := i + 1;
      peak := if peak < i * i then i * i else peak;
    }
    root := i - 1;
    UnmarkedArePrime(n, i, writes);
    WorkBounded(n, writes);
    count := CountUnmarked(sieve, n);
  }

  /** Recomputes the number of primes up to n on a fresh array. */
  method PiReference(n: int) returns (count: nat)
    ensures count == if n < 2 then 0 else |PrimesUpTo(n)|
  {
    if n < 2 {
      return 0;
    }
    var sieve := new bool[n + 1](_ => false);
    ghost var writes, iterations, peak, root;
    count, writes, iterations, peak, root := Sieve(sieve, n);
  }

  /** The benchmark around the sieve; known is the table of expected counts for the standard sizes. */
  class PrimeCounter {
    var n: nat
    var sieve: array<bool>

    ghost predicate Valid()
      reads this
    {
      n >= 1 && sieve.Length == n + 1
    }

    constructor Setup(n: int)
      ensures Valid() && fresh(sieve)
      ensures this.n == if n <= 0 then 10_000_000 else n
    {
      var size := if n <= 0 then SIZE_MEDIUM else n;
      this.n := size;
      sieve := new bool[size + 1];
    }

    /** Whatever an earlier run left in the array, the result is the number of primes up to n. */
    method Run() returns (count: nat)
      requires Valid()
      modifies sieve
      ensures Valid() && count == |PrimesUpTo(n)|
    {
      if n < 2 {
        assert PrimesUpTo(n) == {};
        return 0;
      }
      for c := 0 to sieve.Length
        invariant forall d :: 0 <= d < c ==> !sieve[d]
      {
        sieve[c] := false;
      }
      ghost var writes, iterations, peak, root;
      count, writes, iterations, peak, root := Sieve(sieve, n);
    }

    /** For a size outside the table, accepts exactly the number of primes up to n. */
    method Verify(known: map<nat, nat>, result: nat) returns (ok: bool)
      requires Valid()
      ensures ok <==> result == if n in known then known[n] else |PrimesUpTo(n)|
    {
      if n in known {
        return result == known[n];
      }
      var want := PiReference(n);
      assert n < 2 ==> PrimesUpTo(n) == {};
      return result == want;
    }
  }

  /** A run's result passes the check of a second instance exactly if the table, where it lists the size, is right. */
  method CrossCheck(n: int, known: map<nat, nat>) returns (ok: bool)
    ensures var size := if n <= 0 then SIZE_MEDIUM else n;
            ok <==> (size in known ==> known[size] == |PrimesUpTo(size)|)
  {
    var first := new PrimeCounter.Setup(n);
    var second := new PrimeCounter.Setup(n);
    var count := first.Run();
    ok := second.Verify(known, count);
  }
}
