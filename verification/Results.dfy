// results/results.go: percentiles of the measured durations, in nanoseconds.
module Results {
  import opened NumberTheory
  import opened Permutations
  import Sorting

  datatype Sample = Sample(duration: int)

  // Rates are reals here; names and tags are left out.
  datatype RawResult = RawResult(
    iterations: nat,
    totalDuration: int,
    opsPerSec: real,
    medianNs: int,
    p95Ns: int,
    p99Ns: int,
    verified: bool)

  function Durations(samples: seq<Sample>): (ns: seq<int>)
    ensures |ns| == |samples| && forall i :: 0 <= i < |ns| ==> ns[i] == samples[i].duration
  {
    seq(|samples|, i requires 0 <= i < |samples| => samples[i].duration)
  }

  /** x put in its place in a sorted list. */
  ghost function Placed(s: seq<int>, x: int): (t: seq<int>)
    requires Sorted(s)
    ensures Sorted(t) && multiset(t) == multiset(s) + multiset{x}
    ensures |t| == |s| + 1
    ensures forall y :: y in t ==> y in s || y == x
  {
    if s == [] || s[|s| - 1] <= x then s + [x]
    else
      var t := Placed(s[..|s| - 1], x);
      assert s == s[..|s| - 1] + [s[|s| - 1]];
      assert forall k :: 0 <= k < |t| ==> t[k] in t;
      t + [s[|s| - 1]]
  }

  /** The one sorted arrangement of ns. */
  ghost function Ordered(ns: seq<int>): (t: seq<int>)
    ensures Sorted(t) && multiset(t) == multiset(ns) && |t| == |ns|
  {
    if ns == [] then []
    else
      assert ns == ns[..|ns| - 1] + [ns[|ns| - 1]];
      Placed(Ordered(ns[..|ns| - 1]), ns[|ns| - 1])
  }

  lemma LeastIsFirst(s: seq<int>, t: seq<int>)
    requires s != [] && t != [] && Sorted(s) && Sorted(t) && multiset(s) == multiset(t)
    ensures s[0] <= t[0]
  {
    assert t[0] in multiset(s);
  }

  lemma WithoutFirst(s: seq<int>)
    requires s != []
    ensures multiset(s[1..]) == multiset(s) - multiset{s[0]}
  {
    assert s == [s[0]] + s[1..];
  }

  lemma {:induction false} SortedIsUnique(s: seq<int>, t: seq<int>)
    requires Sorted(s) && Sorted(t) && multiset(s) == multiset(t)
    ensures s == t
    decreases |s|
  {
    assert |s| == |multiset(s)| == |multiset(t)| == |t|;
    if s != [] {
      LeastIsFirst(s, t);
      LeastIsFirst(t, s);
      WithoutFirst(s);
      WithoutFirst(t);
      SortedIsUnique(s[1..], t[1..]);
      assert s == [s[0]] + s[1..] && t == [t[0]] + t[1..];
    }
  }

  ghost function Sum(ns: seq<int>): int {
    if ns == [] then 0 else Sum(ns[..|ns| - 1]) + ns[|ns| - 1]
  }

  lemma {:induction false} SumPlaced(s: seq<int>, x: int)
    requires Sorted(s)
    ensures Sum(Placed(s, x)) == Sum(s) + x
  {
    if s == [] || s[|s| - 1] <= x {
      assert (s + [x])[..|s|] == s;
    } else {
      var t := Placed(s[..|s| - 1], x);
      assert (t + [s[|s| - 1]])[..|t|] == t;
      SumPlaced(s[..|s| - 1], x);
    }
  }

  lemma {:induction false} SumOrdered(ns: seq<int>)
    ensures Sum(Ordered(ns)) == Sum(ns)
  {
    if ns != [] {
      SumOrdered(ns[..|ns| - 1]);
      SumPlaced(Ordered(ns[..|ns| - 1]), ns[|ns| - 1]);
    }
  }

  lemma {:induction false} SumNotNegative(s: seq<int>)
    requires forall k :: 0 <= k < |s| ==> s[k] >= 0
    ensures Sum(s) >= 0
  {
    if s != [] { SumNotNegative(s[..|s| - 1]); }
  }

  lemma {:induction false} SumAtLeast(s: seq<int>, i: int)
    requires Sorted(s) && 0 <= i < |s| && forall k :: 0 <= k < |s| ==> s[k] >= 0
    ensures (|s| - i) * s[i] <= Sum(s)
  {
    var r := s[..|s| - 1];
    if i < |s| - 1 {
      SumAtLeast(r, i);
      assert (|s| - i) * s[i] == (|r| - i) * s[i] + s[i];
    } else {
      SumNotNegative(r);
    }
  }

  lemma ProductRises(n: nat, low: nat, high: nat)
    requires low <= high
    ensures n * low <= n * high
  {
  }

  lemma HundredthsBelow(n: nat, percent: nat)
    requires percent <= 100
    ensures 0 <= n * percent / 100 <= n
  {
  }

  lemma QuotientRises(low: int, high: int)
    requires low <= high
    ensures low / 100 <= high / 100
  {
  }

  /** The position the code reads for a percentile given in hundredths. */
  function Index(n: nat, percent: nat): (i: nat)
    requires n > 0 && percent <= 100
    ensures i < n
  {
    HundredthsBelow(n - 1, percent);
    (n - 1) * percent / 100
  }

  /** The value reported for a percentile of ns; 0 stands for no samples. */
  ghost function Percentile(ns: seq<int>, percent: nat): int
    requires percent <= 100
  {
    if ns == [] then 0 else Ordered(ns)[Index(|ns|, percent)]
  }

  /** A hundred times the least number of the n samples that are at least the percentile. */
  function Share(n: nat, percent: nat): nat
    requires percent <= 100
  {
    n * (100 - percent) + percent
  }

  lemma IndexBelow(n: nat, percent: nat)
    requires n > 0 && percent <= 100
    ensures Share(n, percent) <= 100 * (n - Index(n, percent))
  {
  }

  lemma OrderedNotNegative(ns: seq<int>)
    requires forall k :: 0 <= k < |ns| ==> ns[k] >= 0
    ensures forall k :: 0 <= k < |ns| ==> Ordered(ns)[k] >= 0
  {
    var s := Ordered(ns);
    forall k | 0 <= k < |s|
      ensures s[k] >= 0
    {
      assert s[k] in multiset(ns);
    }
  }

  lemma ShareOfSum(share: nat, weight: nat, v: nat, sum: int)
    requires share <= 100 * weight && weight * v <= sum
    ensures share * v <= 100 * sum
  {
  }

  /**
   * A reported percentile cannot exceed its share of the summed durations: for the p-th percentile v of n samples,
   * (n (100 - p) + p) v <= 100 * sum.
   */
  lemma PercentileWithinShare(ns: seq<int>, percent: nat)
    requires percent <= 100
    requires forall k :: 0 <= k < |ns| ==> ns[k] >= 0
    ensures Share(|ns|, percent) * Percentile(ns, percent) <= 100 * Sum(ns)
    ensures Percentile(ns, percent) >= 0
  {
    hide Ordered, Share, Index;
    if ns != [] {
      var s, i := Ordered(ns), Index(|ns|, percent);
      OrderedNotNegative(ns);
      SumAtLeast(s, i);
      SumOrdered(ns);
      IndexBelow(|ns|, percent);
      ShareOfSum(Share(|ns|, percent), |ns| - i, s[i], Sum(ns));
    }
  }

  lemma IndexRises(n: nat, low: nat, high: nat)
    requires n > 0 && low <= high <= 100
    ensures Index(n, low) <= Index(n, high)
  {
    ProductRises(n - 1, low, high);
    QuotientRises((n - 1) * low, (n - 1) * high);
  }

  lemma PercentilesRise(ns: seq<int>, low: nat, high: nat)
    requires low <= high <= 100
    ensures Percentile(ns, low) <= Percentile(ns, high)
  {
    if ns != [] { IndexRises(|ns|, low, high); }
  }

  // What a percentile is, by counting the durations on either side of it.

  ghost function Shorter(ns: seq<int>, v: int): set<nat> {
    set k: nat | k < |ns| && ns[k] < v
  }

  ghost function NotLonger(ns: seq<int>, v: int): set<nat> {
    set k: nat | k < |ns| && ns[k] <= v
  }

  /** Of n durations, at most (n - 1) percent / 100 are below v, and more than that are at most v; 0 stands for none. */
  ghost predicate AtRank(ns: seq<int>, v: int, percent: nat) {
    if ns == [] then v == 0
    else 100 * |Shorter(ns, v)| <= (|ns| - 1) * percent < 100 * |NotLonger(ns, v)|
  }

  /** There is only one value at a rank. */
  lemma AtRankIsUnique(ns: seq<int>, v: int, w: int, percent: nat)
    requires AtRank(ns, v, percent) && AtRank(ns, w, percent)
    ensures v == w
  {
    if v < w {
      CardinalityMonotone(NotLonger(ns, v), Shorter(ns, w));
    } else if w < v {
      CardinalityMonotone(NotLonger(ns, w), Shorter(ns, v));
    }
  }

  ghost function CountBelow(ns: seq<int>, v: int): nat {
    if ns == [] then 0 else CountBelow(ns[..|ns| - 1], v) + if ns[|ns| - 1] < v then 1 else 0
  }

  lemma {:induction false} CountsShorter(ns: seq<int>, v: int)
    ensures CountBelow(ns, v) == |Shorter(ns, v)|
  {
    if ns == [] {
      assert Shorter(ns, v) == {};
    } else {
      var n := |ns| - 1;
      CountsShorter(ns[..n], v);
      assert Shorter(ns, v) == Shorter(ns[..n], v) + if ns[n] < v then {n} else {};
    }
  }

  lemma CountAppended(s: seq<int>, x: int, v: int)
    ensures CountBelow(s + [x], v) == CountBelow(s, v) + if x < v then 1 else 0
  {
    assert (s + [x])[..|s|] == s;
  }

  lemma {:induction false} CountPlaced(s: seq<int>, x: int, v: int)
    requires Sorted(s)
    ensures CountBelow(Placed(s, x), v) == CountBelow(s, v) + if x < v then 1 else 0
  {
    if s == [] || s[|s| - 1] <= x {
      CountAppended(s, x, v);
    } else {
      CountPlaced(s[..|s| - 1], x, v);
      CountAppended(Placed(s[..|s| - 1], x), s[|s| - 1], v);
    }
  }

  lemma {:induction false} CountOrdered(ns: seq<int>, v: int)
    ensures CountBelow(Ordered(ns), v) == CountBelow(ns, v)
  {
    if ns != [] {
      CountOrdered(ns[..|ns| - 1], v);
      CountPlaced(Ordered(ns[..|ns| - 1]), ns[|ns| - 1], v);
    }
  }

  lemma {:induction false} CountBounds(s: seq<int>, v: int, i: nat)
    requires i <= |s|
    ensures (forall k :: i <= k < |s| ==> s[k] >= v) ==> CountBelow(s, v) <= i
    ensures (forall k :: 0 <= k < i ==> s[k] < v) ==> CountBelow(s, v) >= i
  {
    if s != [] && i < |s| {
      CountBounds(s[..|s| - 1], v, i);
    } else if s != [] {
      CountBounds(s[..|s| - 1], v, i - 1);
    }
  }

  lemma NotLongerIsShorter(ns: seq<int>, v: int)
    ensures NotLonger(ns, v) == Shorter(ns, v + 1)
  {
  }

  /** i durations at most are below the i-th in order, counting from 0, and more than i are at most as long. */
  lemma CountsAtPosition(ns: seq<int>, i: nat)
    requires i < |ns|
    ensures |Shorter(ns, Ordered(ns)[i])| <= i < |NotLonger(ns, Ordered(ns)[i])|
  {
    hide Shorter, NotLonger, CountBelow;
    var s := Ordered(ns);
    hide Ordered;
    CountBounds(s, s[i], i);
    CountBounds(s, s[i] + 1, i + 1);
    CountOrdered(ns, s[i]);
    CountOrdered(ns, s[i] + 1);
    CountsShorter(ns, s[i]);
    CountsShorter(ns, s[i] + 1);
    NotLongerIsShorter(ns, s[i]);
  }

  lemma HundredthsRound(x: nat, i: nat)
    requires i == x / 100
    ensures 100 * i <= x < 100 * (i + 1)
  {
  }

  /** The percentile read off the sorted durations is the value at that rank. */
  lemma PercentileIsAtRank(ns: seq<int>, percent: nat)
    requires percent <= 100
    ensures AtRank(ns, Percentile(ns, percent), percent)
  {
    hide Ordered, Shorter, NotLonger;
    if ns != [] {
      var i := Index(|ns|, percent);
      ProductRises(|ns| - 1, 0, percent);
      HundredthsRound((|ns| - 1) * percent, i);
      CountsAtPosition(ns, i);
    }
  }

  lemma PercentileOfPermutation(s: seq<int>, t: seq<int>)
    requires multiset(s) == multiset(t)
    ensures forall percent: nat | percent <= 100 :: Percentile(s, percent) == Percentile(t, percent)
  {
    SortedIsUnique(Ordered(s), Ordered(t));
  }

  lemma AtRankPermuted(s: seq<int>, t: seq<int>, v: int, percent: nat)
    requires percent <= 100 && multiset(s) == multiset(t) && AtRank(s, v, percent)
    ensures AtRank(t, v, percent)
  {
    hide AtRank, Percentile;
    PercentileIsAtRank(s, percent);
    PercentileIsAtRank(t, percent);
    PercentileOfPermutation(s, t);
    AtRankIsUnique(s, v, Percentile(s, percent), percent);
  }

  method PercentileOf(sorted: array<int>, percent: nat) returns (v: int)
    requires percent <= 100
    requires Sorted(sorted[..])
    ensures v == Percentile(sorted[..], percent)
    ensures AtRank(sorted[..], v, percent)
  {
    hide AtRank;
    PercentileIsAtRank(sorted[..], percent);
    if sorted.Length == 0 {
      return 0;
    }
    SortedIsUnique(sorted[..], Ordered(sorted[..]));
    v := sorted[Index(sorted.Length, percent)];
  }

  lemma EmptyPercentiles()
    ensures forall percent: nat | percent <= 100 :: Percentile([], percent) == 0
  {
  }

  /** sort.Slice is taken by its contract; the verified quicksort of this project discharges it. */
  method Compute(samples: seq<Sample>) returns (median: int, p95: int, p99: int)
    ensures median == Percentile(Durations(samples), 50)
    ensures p95 == Percentile(Durations(samples), 95)
    ensures p99 == Percentile(Durations(samples), 99)
    ensures AtRank(Durations(samples), median, 50)
    ensures AtRank(Durations(samples), p95, 95)
    ensures AtRank(Durations(samples), p99, 99)
  {
    hide Ordered, Percentile, Rearranged, AtRank;
    PercentileIsAtRank(Durations(samples), 50);
    PercentileIsAtRank(Durations(samples), 95);
    PercentileIsAtRank(Durations(samples), 99);
    if |samples| == 0 {
      EmptyPercentiles();
      return 0, 0, 0;
    }
    var ns := new int[|samples|];
    for i := 0 to |samples|
      invariant forall k :: 0 <= k < i ==> ns[k] == samples[k].duration
    {
      ns[i] := samples[i].duration;
    }
    assert ns[..] == Durations(samples);
    ghost var comparisons, depth := Sorting.Quicksort(ns, 0, ns.Length - 1);
    WholeRearranged(Durations(samples), ns[..]);
    PercentileOfPermutation(Durations(samples), ns[..]);
    median := PercentileOf(ns, 50);
    p95 := PercentileOf(ns, 95);
    p99 := PercentileOf(ns, 99);
  }
}
