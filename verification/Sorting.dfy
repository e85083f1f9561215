// benchmarks/sorting.go: median-of-three quicksort with an insertion-sort cutoff.
module Sorting {
  import opened Logarithms
  import opened Permutations

  const INSERTION_CUTOFF := 16
  const SORT_MEDIUM := 100_000

  ghost predicate Constant(s: seq<int>, lo: int, hi: int)
    requires 0 <= lo && hi <= |s|
  {
    forall k :: lo <= k < hi ==> s[k] == s[lo]
  }

  lemma ConstantKept(s: seq<int>, t: seq<int>, lo: int, hi: int)
    requires Rearranged(s, t, lo, hi) && lo < hi && Constant(s, lo, hi)
    ensures forall k :: lo <= k < hi ==> t[k] == s[lo]
  {
    CellsKept(s, t, lo, hi, x => x == s[lo]);
  }

  lemma ConstantPart(s: seq<int>, t: seq<int>, lo: int, hi: int, lo': int, hi': int)
    requires Rearranged(s, t, lo, hi) && Constant(s, lo, hi)
    requires lo <= lo' < hi' <= hi
    ensures Constant(t, lo', hi')
  {
    ConstantKept(s, t, lo, hi);
  }

  // Each in-place method also returns, as ghosts, the number of element comparisons it made.

  /** One of the three conditional exchanges of median-of-three. */
  method OrderCells(a: array<int>, i: int, j: int, ghost s: seq<int>, ghost lo: int, ghost hi: int)
    requires 0 <= lo <= i <= j < hi <= a.Length
    requires Rearranged(s, a[..], lo, hi)
    modifies a
    ensures a[i] <= a[j]
    ensures if old(a[i] > a[j]) then a[i] == old(a[j]) && a[j] == old(a[i]) else a[i] == old(a[i]) && a[j] == old(a[j])
    ensures forall k :: 0 <= k < a.Length && k != i && k != j ==> a[k] == old(a[k])
    ensures Rearranged(s, a[..], lo, hi)
  {
    if a[i] > a[j] { SwapCells(a, i, j, s, lo, hi); }
  }

  method OrderThree(a: array<int>, lo: int, mid: int, hi: int, ghost s: seq<int>)
    requires 0 <= lo <= mid <= hi < a.Length
    requires Rearranged(s, a[..], lo, hi + 1)
    modifies a
    ensures a[lo] <= a[mid] <= a[hi]
    ensures Rearranged(s, a[..], lo, hi + 1)
  {
    hide Rearranged;
    OrderCells(a, lo, mid, s, lo, hi + 1);
    OrderCells(a, lo, hi, s, lo, hi + 1);
    assert a[lo] <= a[mid] && a[lo] <= a[hi];
    OrderCells(a, mid, hi, s, lo, hi + 1);
  }

  method MedianOfThree(a: array<int>, lo: int, hi: int) returns (mid: int, ghost comparisons: nat)
    requires 0 <= lo <= hi < a.Length
    modifies a
    ensures mid == lo + (hi - lo) / 2
    ensures a[lo] <= a[mid] <= a[hi]
    ensures Rearranged(old(a[..]), a[..], lo, hi + 1)
    ensures comparisons == 3
  {
    hide Rearranged;
    ghost var s := a[..];
    mid := lo + (hi - lo) / 2;
    Unchanged(s, lo, hi + 1);
    OrderThree(a, lo, mid, hi, s);
    comparisons := 3;
  }

  /** lo, ..., i are at most the pivot, i + 1, ..., j - 1 above it. */
  ghost predicate Divided(t: seq<int>, lo: int, i: int, j: int, pivot: int)
    requires 0 <= lo && j <= |t|
  {
    && (forall k :: lo <= k <= i && k < j ==> t[k] <= pivot)
    && (forall k :: lo <= k && i < k < j ==> pivot < t[k])
  }

  /** One round of the partition loop. */
  method Divide(a: array<int>, lo: int, hi: int, pivot: int, i: int, j: int, ghost s: seq<int>) returns (i': int)
    requires 0 <= lo <= j < hi < a.Length && lo - 1 <= i < j
    requires Divided(a[..], lo, i, j, pivot) && Rearranged(s, a[..], lo, hi + 1)
    modifies a
    ensures i' == if old(a[j]) <= pivot then i + 1 else i
    ensures a[hi] == old(a[hi])
    ensures Divided(a[..], lo, i', j + 1, pivot) && Rearranged(s, a[..], lo, hi + 1)
  {
    hide Rearranged;
    i' := i;
    if a[j] <= pivot {
      i' := i + 1;
      SwapCells(a, i', j, s, lo, hi + 1);
    }
  }

  /** The pivot goes between the two parts. */
  method PlacePivot(a: array<int>, lo: int, hi: int, i: int, ghost s: seq<int>)
    requires 0 <= lo <= i <= hi < a.Length
    requires Divided(a[..], lo, i - 1, hi, a[hi]) && Rearranged(s, a[..], lo, hi + 1)
    modifies a
    ensures forall k :: lo <= k < i ==> a[k] <= a[i]
    ensures forall k :: i < k <= hi ==> a[i] < a[k]
    ensures Rearranged(s, a[..], lo, hi + 1)
  {
    hide Rearranged;
    SwapCells(a, i, hi, s, lo, hi + 1);
  }

  /** The body of quicksort's outer loop up to the recursive call. */
  method Partition(a: array<int>, lo: int, hi: int) returns (i: int, ghost comparisons: nat)
    requires 0 <= lo && lo + 1 < hi < a.Length
    modifies a
    ensures lo < i <= hi
    ensures forall k :: lo <= k < i ==> a[k] <= a[i]
    ensures forall k :: i < k <= hi ==> a[i] < a[k]
    ensures Rearranged(old(a[..]), a[..], lo, hi + 1)
    ensures comparisons == hi - lo + 3
    ensures Constant(old(a[..]), lo, hi + 1) ==> i == hi
  {
    hide Rearranged, Constant;
    ghost var s := a[..];
    var p;
    p, comparisons := MedianOfThree(a, lo, hi);
    var pivot := a[p];
    SwapCells(a, p, hi, s, lo, hi + 1);
    assert a[lo] <= pivot;
    i := lo - 1;
    assert Divided(a[..], lo, i, lo, pivot);
    hide Divided;
    for j := lo to hi
      invariant lo - 1 <= i < j
      invariant a[hi] == pivot
      invariant if j == lo then a[lo] <= pivot else lo <= i
      invariant Divided(a[..], lo, i, j, pivot)
      invariant Rearranged(s, a[..], lo, hi + 1)
      invariant comparisons == 3 + j - lo
    {
      comparisons := comparisons + 1;
      i := Divide(a, lo, hi, pivot, i, j, s);
    }
    i := i + 1;
    PlacePivot(a, lo, hi, i, s);
    if Constant(s, lo, hi + 1) {
      ConstantKept(s, a[..], lo, hi + 1);
      assert a[..][hi] == a[..][i];
    }
  }

  /** The contents after s[i] has moved left to p past s[p], ..., s[i - 1]. */
  ghost function Inserted(s: seq<int>, p: int, i: int): (t: seq<int>)
    requires 0 <= p <= i < |s|
    ensures |t| == |s|
  {
    s[..p] + [s[i]] + s[p..i] + s[i + 1..]
  }

  lemma InsertedInPieces(s: seq<int>, p: int, i: int, lo: int, hi: int)
    requires 0 <= lo <= p <= i < hi <= |s|
    ensures Inserted(s, p, i) == s[..lo] + s[lo..p] + [s[i]] + s[p..i] + s[i + 1..hi] + s[hi..]
  {
  }

  lemma InsertedIsRearranged(s: seq<int>, p: int, i: int, lo: int, hi: int)
    requires 0 <= lo <= p <= i < hi <= |s|
    ensures Rearranged(s, Inserted(s, p, i), lo, hi)
  {
    hide Rearranged;
    Cut(s, lo, p, i, hi);
    PiecesExchanged(s[..lo], s[lo..p], s[p..i], [s[i]], s[i + 1..hi], s[hi..]);
    InsertedInPieces(s, p, i, lo, hi);
  }

  /** The contents while s[i] is held aside and s[p], ..., s[i - 1] have moved one cell to the right. */
  ghost function Shifted(s: seq<int>, p: int, i: int): (t: seq<int>)
    requires 0 <= p <= i < |s|
    ensures |t| == |s|
  {
    s[..p + 1] + s[p..i] + s[i + 1..]
  }

  lemma NothingShifted(s: seq<int>, i: int)
    requires 0 <= i < |s|
    ensures Shifted(s, i, i) == s
  {
  }

  lemma ShiftOne(s: seq<int>, p: int, i: int)
    requires 0 < p <= i < |s|
    ensures Shifted(s, p, i)[p - 1] == s[p - 1]
    ensures Shifted(s, p, i)[p := s[p - 1]] == Shifted(s, p - 1, i)
  {
  }

  lemma ShiftedIntoPlace(s: seq<int>, p: int, i: int)
    requires 0 <= p <= i < |s|
    ensures Shifted(s, p, i)[p := s[i]] == Inserted(s, p, i)
  {
  }

  /** The inner loop of insertion sort: a[i] moves left past the larger cells of lo, ..., i - 1. */
  method MoveLeft(a: array<int>, lo: int, i: int) returns (ghost p: int, ghost comparisons: nat)
    requires 0 <= lo < i < a.Length
    modifies a
    ensures lo <= p <= i && a[..] == Inserted(old(a[..]), p, i)
    ensures forall k :: p <= k < i ==> old(a[i]) < old(a[k])
    ensures lo < p ==> old(a[p - 1]) <= old(a[i])
    ensures comparisons == if p == lo then i - p else i - p + 1
  {
    hide Shifted, Inserted;
    ghost var s := a[..];
    comparisons := 0;
    var v := a[i];
    var j := i - 1;
    NothingShifted(s, i);
    while j >= lo && a[j] > v
      invariant lo - 1 <= j < i
      invariant a[..] == Shifted(s, j + 1, i)
      invariant j >= lo ==> a[j] == s[j]
      invariant forall k :: j < k < i ==> v < s[k]
      invariant comparisons == i - 1 - j
    {
      ShiftOne(s, j + 1, i);
      if j > lo { ShiftOne(s, j, i); }
      a[j + 1] := a[j];
      comparisons := comparisons + 1;
      j := j - 1;
    }
    if j >= lo { comparisons := comparisons + 1; }
    p := j + 1;
    ShiftedIntoPlace(s, p, i);
    a[j + 1] := v;
  }

  lemma InsertedIsSorted(s: seq<int>, p: int, i: int, lo: int)
    requires 0 <= lo <= p <= i < |s|
    requires SortedPart(s, lo, i - 1)
    requires forall k :: p <= k < i ==> s[i] < s[k]
    requires lo < p ==> s[p - 1] <= s[i]
    ensures SortedPart(Inserted(s, p, i), lo, i)
  {
  }

  /** One round of insertion sort. */
  method Insert(a: array<int>, lo: int, i: int, ghost s: seq<int>, ghost hi: int) returns (ghost comparisons: nat)
    requires 0 <= lo < i <= hi < a.Length == |s|
    requires Rearranged(s, a[..], lo, hi + 1) && SortedPart(a[..], lo, i - 1)
    modifies a
    ensures Rearranged(s, a[..], lo, hi + 1) && SortedPart(a[..], lo, i)
    ensures comparisons <= i - lo
    ensures Constant(s, lo, hi + 1) ==> comparisons == 1
  {
    hide Rearranged, Inserted;
    ghost var t := a[..];
    if Constant(s, lo, hi + 1) { ConstantKept(s, t, lo, hi + 1); }
    ghost var p;
    p, comparisons := MoveLeft(a, lo, i);
    InsertedIsRearranged(t, p, i, lo, hi + 1);
    InsertedIsSorted(t, p, i, lo);
    Compose(s, t, a[..], lo, hi + 1);
    assert p < i ==> t[i] < t[i - 1];
  }

  ghost function Pairs(n: nat): nat
  {
    if n == 0 then 0 else Pairs(n - 1) + n - 1
  }

  lemma {:induction false} PairsClosedForm(n: nat)
    ensures 2 * Pairs(n) == n * (n - 1)
  {
    if n > 0 { PairsClosedForm(n - 1); }
  }

  method InsertionSort(a: array<int>, lo: int, hi: int) returns (ghost comparisons: nat)
    requires 0 <= lo <= hi + 1 <= a.Length
    modifies a
    ensures Rearranged(old(a[..]), a[..], lo, hi + 1)
    ensures SortedPart(a[..], lo, hi)
    ensures comparisons <= Pairs(hi - lo + 1)
    ensures lo <= hi && Constant(old(a[..]), lo, hi + 1) ==> comparisons == hi - lo
  {
    hide Rearranged;
    ghost var s := a[..];
    comparisons := 0;
    Unchanged(s, lo, hi + 1);
    var i := lo + 1;
    while i <= hi
      invariant lo < i && (i <= hi + 1 || i == lo + 1)
      invariant Rearranged(s, a[..], lo, hi + 1)
      invariant SortedPart(a[..], lo, if i <= hi then i - 1 else hi)
      invariant comparisons <= Pairs(i - lo)
      invariant Constant(s, lo, hi + 1) ==> comparisons == i - lo - 1
    {
      ghost var spent := Insert(a, lo, i, s, hi);
      comparisons := comparisons + spent;
      i := i + 1;
    }
  }

  /** The most comparisons quicksort makes on a segment of n cells: n(n-1)/2 + 3n. */
  ghost function Budget(n: nat): nat {
    Pairs(n) + 3 * n
  }

  /** Partitioning l + r + 1 cells costs l + r + 3 comparisons, and both sides fit in what is left. */
  lemma BudgetSplits(l: nat, r: nat, n: nat)
    requires n == l + r + 1
    ensures Budget(l) + Budget(r) + n + 2 <= Budget(n)
    ensures r == 0 ==> Budget(r) == 0 && Budget(l) + n + 2 == Budget(n)
  {
    PairsClosedForm(l);
    PairsClosedForm(r);
    PairsClosedForm(l + r + 1);
    assert (l + r + 1) * (l + r) == l * (l - 1) + r * (r - 1) + 2 * (l * r) + 2 * (l + r);
  }

  /** All pairs of cells in lo, ..., hi are in order, except those inside l1, ..., r1 or inside l2, ..., r2. */
  ghost predicate OrderedBut(s: seq<int>, lo: int, hi: int, l1: int, r1: int, l2: int, r2: int)
    requires 0 <= lo && hi < |s|
  {
    forall k, m :: lo <= k < m <= hi && !(l1 <= k && m <= r1) && !(l2 <= k && m <= r2) ==> s[k] <= s[m]
  }

  lemma NothingOrderedYet(s: seq<int>, lo: int, hi: int)
    requires 0 <= lo <= hi + 1 <= |s|
    ensures OrderedBut(s, lo, hi, lo, hi, 0, -1)
  {
  }

  /** Rearranging one of the two unordered stretches keeps the rest in order. */
  lemma OrderKept(s: seq<int>, t: seq<int>, lo: int, hi: int, l1: int, r1: int, l2: int, r2: int)
    requires 0 <= lo <= l1 <= r1 + 1 <= hi + 1 <= |s|
    requires r1 < l2 || r2 < l1
    requires OrderedBut(s, lo, hi, l1, r1, l2, r2) && Rearranged(s, t, l1, r1 + 1)
    ensures OrderedBut(t, lo, hi, l1, r1, l2, r2)
  {
    OutsideKept(s, t, l1, r1 + 1);
    forall k, m | lo <= k < m <= hi && !(l1 <= k && m <= r1) && !(l2 <= k && m <= r2)
      ensures t[k] <= t[m]
    {
      if l1 <= k <= r1 {
        CellsKept(s, t, l1, r1 + 1, x => x <= s[m]);
      } else if l1 <= m <= r1 {
        CellsKept(s, t, l1, r1 + 1, x => s[k] <= x);
      }
    }
  }

  /** A partition of the unordered stretch around cell p leaves two. */
  lemma OrderSplit(s: seq<int>, t: seq<int>, lo0: int, hi0: int, lo: int, hi: int, p: int)
    requires 0 <= lo0 <= lo <= p <= hi <= hi0 < |s|
    requires OrderedBut(s, lo0, hi0, lo, hi, 0, -1) && Rearranged(s, t, lo, hi + 1)
    requires forall k :: lo <= k < p ==> t[k] <= t[p]
    requires forall k :: p < k <= hi ==> t[p] < t[k]
    ensures OrderedBut(t, lo0, hi0, lo, p - 1, p + 1, hi)
    ensures OrderedBut(t, lo0, hi0, p + 1, hi, lo, p - 1)
  {
    OrderKept(s, t, lo0, hi0, lo, hi, 0, -1);
  }

  /** Sorting one of the two unordered stretches leaves the other. */
  lemma OrderExtended(s: seq<int>, t: seq<int>, lo: int, hi: int, l1: int, r1: int, l2: int, r2: int)
    requires 0 <= lo <= l1 <= r1 + 1 <= hi + 1 <= |s|
    requires r1 < l2 || r2 < l1
    requires OrderedBut(s, lo, hi, l1, r1, l2, r2) && Rearranged(s, t, l1, r1 + 1)
    requires SortedPart(t, l1, r1)
    ensures OrderedBut(t, lo, hi, l2, r2, 0, -1)
    ensures r2 < l2 ==> SortedPart(t, lo, hi)
  {
    OrderKept(s, t, lo, hi, l1, r1, l2, r2);
  }

  lemma InsertionFits(n: nat)
    ensures Pairs(n) <= Budget(n)
    ensures n == INSERTION_CUTOFF + 1 ==> Budget(n) == 187
  {
    PairsClosedForm(n);
  }

  /** A recursive call on the smaller side of n cells is one deeper than its own depth d. */
  lemma DepthGrows(d: nat, small: nat, n: nat)
    requires n > INSERTION_CUTOFF + 1 && 2 * small + 1 <= n
    requires d > 0 ==> 19 * Pow2(d - 1) <= small + 1
    ensures 19 * Pow2(d) <= n + 1
    ensures small == 0 ==> d == 0
  {
  }

  /** One partition within the cells lo0, ..., hi0, of which only lo, ..., hi are still out of order. */
  method Split(a: array<int>, lo: int, hi: int, ghost s: seq<int>, ghost lo0: int, ghost hi0: int)
    returns (i: int, ghost comparisons: nat)
    requires 0 <= lo0 <= lo && lo + 1 < hi <= hi0 < a.Length
    requires Rearranged(s, a[..], lo0, hi0 + 1) && OrderedBut(a[..], lo0, hi0, lo, hi, 0, -1)
    modifies a
    ensures lo < i <= hi
    ensures Rearranged(s, a[..], lo0, hi0 + 1)
    ensures OrderedBut(a[..], lo0, hi0, lo, i - 1, i + 1, hi)
    ensures OrderedBut(a[..], lo0, hi0, i + 1, hi, lo, i - 1)
    ensures comparisons == hi - lo + 3
    ensures Constant(old(a[..]), lo, hi + 1) ==> i == hi
  {
    hide Rearranged, OrderedBut, Constant;
    ghost var t := a[..];
    i, comparisons := Partition(a, lo, hi);
    ComposeInner(s, t, a[..], lo0, hi0 + 1, lo, hi + 1);
    OrderSplit(t, a[..], lo0, hi0, lo, hi, i);
  }

  /** The recursive call on the smaller side l1, ..., r1 of a partition of n of the cells lo0, ..., hi0. */
  method SortSide(a: array<int>, l1: int, r1: int, ghost l2: int, ghost r2: int, ghost n: nat,
                  ghost s: seq<int>, ghost lo0: int, ghost hi0: int)
    returns (ghost comparisons: nat, ghost depth: nat)
    requires 0 <= lo0 <= l1 <= r1 + 1 <= hi0 + 1 <= a.Length
    requires r1 < l2 || r2 < l1
    requires n > INSERTION_CUTOFF + 1 && 2 * (r1 - l1 + 1) + 1 <= n
    requires Rearranged(s, a[..], lo0, hi0 + 1) && OrderedBut(a[..], lo0, hi0, l1, r1, l2, r2)
    modifies a
    ensures Rearranged(s, a[..], lo0, hi0 + 1) && OrderedBut(a[..], lo0, hi0, l2, r2, 0, -1)
    ensures comparisons <= Budget(r1 - l1 + 1)
    ensures depth > 0 && 19 * Pow2(depth - 1) <= n + 1
    ensures r1 < l1 ==> depth == 1
    decreases r1 - l1, 3
  {
    hide Rearranged, OrderedBut, SortedPart;
    ghost var t := a[..];
    comparisons, depth := Quicksort(a, l1, r1);
    DepthGrows(depth, r1 - l1 + 1, n);
    depth := depth + 1;
    ComposeInner(s, t, a[..], lo0, hi0 + 1, l1, r1 + 1);
    OrderExtended(t, a[..], lo0, hi0, l1, r1, l2, r2);
  }

  /** One iteration of quicksort's outer loop: partition, sort the smaller side, go on with the larger. */
  method Narrow(a: array<int>, lo: int, hi: int, ghost s: seq<int>, ghost lo0: int, ghost hi0: int)
    returns (lo': int, hi': int, ghost comparisons: nat, ghost depth: nat)
    requires 0 <= lo0 <= lo && lo + INSERTION_CUTOFF < hi <= hi0 < a.Length
    requires Rearranged(s, a[..], lo0, hi0 + 1) && OrderedBut(a[..], lo0, hi0, lo, hi, 0, -1)
    modifies a
    ensures lo <= lo' <= hi' + 1 <= hi + 1 && hi' - lo' < hi - lo
    ensures Rearranged(s, a[..], lo0, hi0 + 1) && OrderedBut(a[..], lo0, hi0, lo', hi', 0, -1)
    ensures comparisons + Budget(hi' - lo' + 1) <= Budget(hi - lo + 1)
    ensures depth > 0 && 19 * Pow2(depth - 1) <= hi - lo + 2
    ensures Constant(old(a[..]), lo, hi + 1) ==> lo' == lo && hi' == hi - 1 && depth == 1
    ensures Constant(old(a[..]), lo, hi + 1) ==> comparisons + Budget(hi' - lo' + 1) == Budget(hi - lo + 1)
    decreases hi - lo, 0
  {
    hide Rearranged, OrderedBut, Budget, Constant, Pow2;
    ghost var n := hi - lo + 1;
    var i;
    ghost var spent;
    i, spent := Split(a, lo, hi, s, lo0, hi0);
    BudgetSplits(i - lo, hi - i, n);
    if i - lo < hi - i {
      comparisons, depth := SortSide(a, lo, i - 1, i + 1, hi, n, s, lo0, hi0);
      lo', hi' := i + 1, hi;
    } else {
      comparisons, depth := SortSide(a, i + 1, hi, lo, i - 1, n, s, lo0, hi0);
      lo', hi' := lo, i - 1;
    }
    comparisons := comparisons + spent;
  }

  /** The insertion sort that ends quicksort, on the stretch still out of order. */
  method Finish(a: array<int>, lo: int, hi: int, ghost s: seq<int>, ghost lo0: int, ghost hi0: int)
    returns (ghost comparisons: nat)
    requires 0 <= lo0 <= lo <= hi + 1 <= hi0 + 1 <= a.Length
    requires Rearranged(s, a[..], lo0, hi0 + 1) && OrderedBut(a[..], lo0, hi0, lo, hi, 0, -1)
    modifies a
    ensures Rearranged(s, a[..], lo0, hi0 + 1) && SortedPart(a[..], lo0, hi0)
    ensures comparisons <= Budget(hi - lo + 1)
    ensures hi - lo == INSERTION_CUTOFF && Constant(old(a[..]), lo, hi + 1) ==>
              comparisons == Budget(hi - lo + 1) - 171
  {
    hide Rearranged, OrderedBut, SortedPart, Budget, Constant;
    ghost var t := a[..];
    comparisons := InsertionSort(a, lo, hi);
    InsertionFits(hi - lo + 1);
    ComposeInner(s, t, a[..], lo0, hi0 + 1, lo, hi + 1);
    OrderExtended(t, a[..], lo0, hi0, lo, hi, 0, -1);
  }

  /**
   * Sorts the cells lo0, ..., hi0 of a. Whatever the contents, the comparisons stay within Budget, and depth, the
   * number of nested recursive calls, is at most logarithmic. A constant segment meets the budget up to 171
   * comparisons with one level of recursion.
   */
  method Quicksort(a: array<int>, lo0: int, hi0: int) returns (ghost comparisons: nat, ghost depth: nat)
    requires 0 <= lo0 <= hi0 + 1 <= a.Length
    modifies a
    ensures Rearranged(old(a[..]), a[..], lo0, hi0 + 1)
    ensures SortedPart(a[..], lo0, hi0)
    ensures comparisons <= Budget(hi0 - lo0 + 1)
    ensures depth > 0 ==> 19 * Pow2(depth - 1) <= hi0 - lo0 + 2
    ensures hi0 - lo0 >= INSERTION_CUTOFF && Constant(old(a[..]), lo0, hi0 + 1) ==>
              comparisons == Budget(hi0 - lo0 + 1) - 171 && depth <= 1
    decreases hi0 - lo0, 2
  {
    hide Rearranged, OrderedBut, SortedPart, Budget, Constant, Pow2;
    ghost var s := a[..];
    Unchanged(s, lo0, hi0 + 1);
    NothingOrderedYet(s, lo0, hi0);
    ghost var constant := hi0 - lo0 >= INSERTION_CUTOFF && Constant(s, lo0, hi0 + 1);
    comparisons, depth := 0, 0;
    var lo, hi := lo0, hi0;
    while hi - lo > INSERTION_CUTOFF
      invariant lo0 <= lo <= hi + 1 <= hi0 + 1
      invariant Rearranged(s, a[..], lo0, hi0 + 1)
      invariant OrderedBut(a[..], lo0, hi0, lo, hi, 0, -1)
      invariant comparisons + Budget(hi - lo + 1) <= Budget(hi0 - lo0 + 1)
      invariant depth > 0 ==> 19 * Pow2(depth - 1) <= hi0 - lo0 + 2
      invariant constant ==> lo == lo0 && hi - lo >= INSERTION_CUTOFF && depth <= 1
      invariant constant ==> comparisons + Budget(hi - lo + 1) == Budget(hi0 - lo0 + 1)
      decreases hi - lo
    {
      if constant { ConstantPart(s, a[..], lo0, hi0 + 1, lo, hi + 1); }
      ghost var spent, below;
      lo, hi, spent, below := Narrow(a, lo, hi, s, lo0, hi0);
      comparisons := comparisons + spent;
      depth := if depth < below then below else depth;
    }
    if constant { ConstantPart(s, a[..], lo0, hi0 + 1, lo, hi + 1); }
    ghost var spent := Finish(a, lo, hi, s, lo0, hi0);
    comparisons := comparisons + spent;
  }

  /** The two bounds of Quicksort in closed form: quadratic comparisons, recursion no deeper than log2(n). */
  lemma {:induction false} BoundsInClosedForm(n: nat, depth: nat)
    requires depth > 0 ==> 19 * Pow2(depth - 1) <= n + 1
    ensures 2 * Budget(n) == n * (n - 1) + 6 * n
    ensures n > 0 ==> depth <= Log2(n)
  {
    PairsClosedForm(n);
    if n > 0 { Log2AtLeast(depth, n); }
  }

  /** The benchmark around the sort. Random numbers come from outside, as the list drawn by one Run. */
  class Sorter {
    var n: nat
    var arr: array<int>

    ghost predicate Valid()
      reads this
    {
      arr.Length == n
    }

    constructor Setup(n: int)
      ensures Valid() && fresh(arr)
      ensures this.n == if n <= 0 then 100_000 else n
    {
      var size := if n <= 0 then SORT_MEDIUM else n;
      this.n := size;
      arr := new int[size];
    }

    method Run(draws: seq<int>) returns (result: array<int>)
      requires Valid() && |draws| == arr.Length
      modifies arr
      ensures result == arr && Valid()
      ensures Sorted(result[..]) && multiset(result[..]) == multiset(draws)
    {
      for i := 0 to arr.Length
        invariant arr[..i] == draws[..i]
      {
        arr[i] := draws[i];
      }
      assert arr[..] == draws;
      ghost var comparisons, depth := Quicksort(arr, 0, arr.Length - 1);
      WholeRearranged(draws, arr[..]);
      return arr;
    }

    /** Accepts exactly the non-decreasing lists of the configured length, so every result of Run. */
    method Verify(result: seq<int>) returns (ok: bool)
      ensures ok <==> |result| == n && Sorted(result)
    {
      if |result| != n {
        return false;
      }
      var i := 1;
      while i < |result|
        invariant |result| > 0 ==> 1 <= i <= |result| && Sorted(result[..i])
      {
        if result[i - 1] > result[i] {
          return false;
        }
        assert forall k :: 0 <= k < i ==> result[..i][k] <= result[..i][i - 1];
        i := i + 1;
      }
      assert result[..|result|] == result;
      return true;
    }
  }

  /** A run's result passes the check of a second instance that was set up on its own. */
  method CrossCheck(n: int, draws: seq<int>) returns (ok: bool)
    requires |draws| == if n <= 0 then SORT_MEDIUM else n
    ensures ok
  {
    var first := new Sorter.Setup(n);
    var second := new Sorter.Setup(n);
    var result := first.Run(draws);
    ok := second.Verify(result[..]);
  }
}
