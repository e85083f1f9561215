// In-place rearrangement of a segment, stated on the contents before and after.
module Permutations {

  /** t differs from s only by permuting the cells lo, ..., hi - 1. */
  ghost predicate Rearranged(s: seq<int>, t: seq<int>, lo: int, hi: int) {
    && |s| == |t|
    && 0 <= lo <= hi <= |s|
    && s[..lo] == t[..lo]
    && s[hi..] == t[hi..]
    && multiset(s[lo..hi]) == multiset(t[lo..hi])
  }

  ghost predicate SortedPart(s: seq<int>, lo: int, hi: int)
    requires 0 <= lo && hi < |s|
  {
    forall i, j :: lo <= i < j <= hi ==> s[i] <= s[j]
  }

  ghost predicate Sorted(s: seq<int>) {
    forall i, j :: 0 <= i < j < |s| ==> s[i] <= s[j]
  }

  lemma Unchanged(s: seq<int>, lo: int, hi: int)
    requires 0 <= lo <= hi <= |s|
    ensures Rearranged(s, s, lo, hi)
  {
  }

  lemma WholeRearranged(s: seq<int>, t: seq<int>)
    requires Rearranged(s, t, 0, |s|)
    ensures multiset(s) == multiset(t)
  {
    assert s[0..|s|] == s && t[0..|s|] == t;
  }

  lemma Bracketed(a: seq<int>, b: seq<int>, c: seq<int>, d: seq<int>, e: seq<int>, f: seq<int>)
    ensures a + b + c + d + e + f == a + (b + c + d + e) + f
  {
  }

  lemma RearrangedMiddle(before: seq<int>, q: seq<int>, r: seq<int>, after: seq<int>)
    requires multiset(q) == multiset(r)
    ensures Rearranged(before + q + after, before + r + after, |before|, |before| + |q|)
  {
    var s, t := before + q + after, before + r + after;
    assert |multiset(q)| == |multiset(r)|;
    assert s[..|before|] == before && t[..|before|] == before;
    assert s[|before|..|before| + |q|] == q && t[|before|..|before| + |q|] == r;
    assert s[|before| + |q|..] == after && t[|before| + |q|..] == after;
  }

  /** Exchanging two neighbouring pieces of the middle. */
  lemma PiecesExchanged(a: seq<int>, b: seq<int>, c: seq<int>, d: seq<int>, e: seq<int>, f: seq<int>)
    ensures Rearranged(a + b + c + d + e + f, a + b + d + c + e + f, |a|, |a| + |b| + |c| + |d| + |e|)
  {
    hide Rearranged;
    Bracketed(a, b, c, d, e, f);
    Bracketed(a, b, d, c, e, f);
    RearrangedMiddle(a, b + c + d + e, b + d + c + e, f);
  }

  lemma Cut(s: seq<int>, i: int, j: int, k: int, l: int)
    requires 0 <= i <= j <= k < l <= |s|
    ensures s == s[..i] + s[i..j] + s[j..k] + [s[k]] + s[k + 1..l] + s[l..]
  {
  }

  lemma Compose(s: seq<int>, t: seq<int>, u: seq<int>, lo: int, hi: int)
    requires Rearranged(s, t, lo, hi) && Rearranged(t, u, lo, hi)
    ensures Rearranged(s, u, lo, hi)
  {
  }

  lemma SegmentSwapped(s: seq<int>, i: int, j: int)
    requires 0 <= i < |s| && 0 <= j < |s|
    ensures multiset(s[i := s[j]][j := s[i]]) == multiset(s)
  {
  }

  lemma InsideSegment(s: seq<int>, lo: int, hi: int, i: int, x: int)
    requires 0 <= lo <= i < hi <= |s|
    ensures var t := s[i := x];
            t[..lo] == s[..lo] && t[lo..hi] == s[lo..hi][i - lo := x] && t[hi..] == s[hi..]
  {
  }

  lemma TwiceInsideSegment(s: seq<int>, lo: int, hi: int, i: int, x: int, j: int, y: int)
    requires 0 <= lo <= i < hi <= |s| && lo <= j < hi
    ensures var t := s[i := x][j := y];
            t[..lo] == s[..lo] && t[lo..hi] == s[lo..hi][i - lo := x][j - lo := y] && t[hi..] == s[hi..]
  {
    InsideSegment(s, lo, hi, i, x);
    InsideSegment(s[i := x], lo, hi, j, y);
  }

  lemma RearrangedBySegment(s: seq<int>, t: seq<int>, lo: int, hi: int, m: seq<int>)
    requires |t| == |s| && 0 <= lo <= hi <= |s|
    requires t[..lo] == s[..lo] && t[lo..hi] == m && t[hi..] == s[hi..]
    requires multiset(m) == multiset(s[lo..hi])
    ensures Rearranged(s, t, lo, hi)
  {
  }

  lemma Swap(s: seq<int>, lo: int, hi: int, i: int, j: int)
    requires 0 <= lo <= i < hi <= |s| && lo <= j < hi
    ensures Rearranged(s, s[i := s[j]][j := s[i]], lo, hi)
  {
    hide Rearranged;
    var m := s[lo..hi];
    SegmentSwapped(m, i - lo, j - lo);
    assert m[i - lo] == s[i] && m[j - lo] == s[j];
    TwiceInsideSegment(s, lo, hi, i, s[j], j, s[i]);
    RearrangedBySegment(s, s[i := s[j]][j := s[i]], lo, hi, m[i - lo := s[j]][j - lo := s[i]]);
  }

  /** One more exchange inside the segment of contents already rearranged from s. */
  lemma Exchanged(s: seq<int>, t: seq<int>, lo: int, hi: int, i: int, j: int) returns (u: seq<int>)
    requires Rearranged(s, t, lo, hi)
    requires lo <= i < hi && lo <= j < hi
    ensures Rearranged(s, u, lo, hi) && |u| == |s| == |t|
    ensures u[i] == t[j] && u[j] == t[i]
    ensures forall k :: 0 <= k < |t| && k != i && k != j ==> u[k] == t[k]
  {
    Swap(t, lo, hi, i, j);
    u := t[i := t[j]][j := t[i]];
    Compose(s, t, u, lo, hi);
  }

  method SwapCells(a: array<int>, i: int, j: int, ghost s: seq<int>, ghost lo: int, ghost hi: int)
    requires 0 <= lo <= i < hi <= a.Length && lo <= j < hi
    requires Rearranged(s, a[..], lo, hi)
    modifies a
    ensures a[i] == old(a[j]) && a[j] == old(a[i])
    ensures forall k :: 0 <= k < a.Length && k != i && k != j ==> a[k] == old(a[k])
    ensures Rearranged(s, a[..], lo, hi)
  {
    hide Rearranged;
    ghost var u := Exchanged(s, a[..], lo, hi, i, j);
    a[i], a[j] := a[j], a[i];
    assert a[..] == u;
  }

  /** A permutation of an inner segment is a permutation of any segment around it. */
  lemma Widen(s: seq<int>, t: seq<int>, lo: int, hi: int, lo': int, hi': int)
    requires Rearranged(s, t, lo, hi)
    requires 0 <= lo' <= lo && hi <= hi' <= |s|
    ensures Rearranged(s, t, lo', hi')
  {
    assert s[lo'..hi'] == s[..lo][lo'..] + s[lo..hi] + s[hi..][..hi' - hi];
    assert t[lo'..hi'] == t[..lo][lo'..] + t[lo..hi] + t[hi..][..hi' - hi];
    assert s[..lo'] == s[..lo][..lo'] == t[..lo'];
    assert s[hi'..] == s[hi..][hi' - hi..] == t[hi'..];
  }

  lemma ComposeInner(s: seq<int>, t: seq<int>, u: seq<int>, lo: int, hi: int, lo': int, hi': int)
    requires Rearranged(s, t, lo, hi) && Rearranged(t, u, lo', hi')
    requires lo <= lo' && hi' <= hi
    ensures Rearranged(s, u, lo, hi)
  {
    Widen(t, u, lo', hi', lo, hi);
  }

  /** What held of every cell of the segment still does. */
  lemma CellsKept(s: seq<int>, t: seq<int>, lo: int, hi: int, p: int -> bool)
    requires Rearranged(s, t, lo, hi)
    requires forall k :: lo <= k < hi ==> p(s[k])
    ensures forall k :: lo <= k < hi ==> p(t[k])
  {
    forall k | lo <= k < hi
      ensures p(t[k])
    {
      assert t[k] == t[lo..hi][k - lo];
      assert t[k] in multiset(s[lo..hi]);
      var m :| 0 <= m < hi - lo && s[lo..hi][m] == t[k];
      assert s[lo + m] == t[k];
    }
  }

  /** Cells outside the segment are untouched. */
  lemma OutsideKept(s: seq<int>, t: seq<int>, lo: int, hi: int)
    requires Rearranged(s, t, lo, hi)
    ensures forall k :: 0 <= k < lo || hi <= k < |s| ==> t[k] == s[k]
  {
  }
}
