// benchmarks/matrix.go: the in-place i-k-j product refines the dot product of row and column, for 64-bit integers and
// for floats alike.
module Matrix {

  const MAT_MEDIUM := 256
  const MAT_SMALL := 64

  // The arithmetic of an element type. mac(s, x, y) is s + x * y, of which nothing is assumed: it may wrap or round,
  // and addition need not be associative or commutative. close is the test of Verify: got against wanted.
  datatype Ops<!F> = Ops(zero: F, mac: (F, F, F) -> F, close: (F, F) -> bool)

  /** Position of a cell in the flat array. */
  function Flat(n: nat, row: nat, col: nat): nat {
    row * n + col
  }

  lemma FlatInRange(n: nat, row: nat, col: nat)
    requires row < n && col < n
    ensures Flat(n, row, col) < n * n
  {
    assert (row + 1) * n <= n * n;
  }

  lemma FlatInjective(n: nat, row: nat, col: nat, row': nat, col': nat)
    requires row < n && col < n && row' < n && col' < n
    ensures Flat(n, row, col) == Flat(n, row', col') <==> row == row' && col == col'
  {
    if row < row' {
      assert (row + 1) * n <= row' * n;
    } else if row' < row {
      assert (row' + 1) * n <= row * n;
    }
  }

  /** The cell with the given indices. */
  function Cell<F>(n: nat, m: seq<F>, row: nat, col: nat): F
    requires |m| == n * n && row < n && col < n
  {
    FlatInRange(n, row, col);
    m[Flat(n, row, col)]
  }

  /** The first k terms of row times column, added to start in order. */
  function Dot<F>(ops: Ops<F>, n: nat, a: seq<F>, b: seq<F>, row: nat, col: nat, start: F, k: nat): F
    requires |a| == |b| == n * n && row < n && col < n && k <= n
  {
    if k == 0 then start
    else ops.mac(Dot(ops, n, a, b, row, col, start, k - 1), Cell(n, a, row, k - 1), Cell(n, b, k - 1, col))
  }

  /** Every cell of c is the whole dot product, added to what the cell held before. */
  ghost predicate Accumulated<F>(ops: Ops<F>, n: nat, a: seq<F>, b: seq<F>, before: seq<F>, c: seq<F>) {
    && |a| == |b| == |c| == |before| == n * n
    && forall row: nat, col: nat :: row < n && col < n ==>
         Cell(n, c, row, col) == Dot(ops, n, a, b, row, col, Cell(n, before, row, col), n)
  }

  /** The innermost loop: row i gains its k-th terms. */
  method AddTerms<F>(ops: Ops<F>, c: array<F>, a: array<F>, b: array<F>, n: nat, i: nat, k: nat)
    requires c.Length == a.Length == b.Length == n * n && c != a && c != b
    requires i < n && k < n
    modifies c
    ensures forall row: nat, col: nat :: row < n && col < n ==>
              Cell(n, c[..], row, col) ==
              if row == i then ops.mac(Cell(n, old(c[..]), i, col), Cell(n, a[..], i, k), Cell(n, b[..], k, col))
              else Cell(n, old(c[..]), row, col)
  {
    hide Flat;
    FlatInRange(n, i, k);
    ghost var before := c[..];
    var aik := a[Flat(n, i, k)];
    for j := 0 to n
      invariant forall row: nat, col: nat :: row < n && col < n ==>
                  Cell(n, c[..], row, col) ==
                  if row == i && col < j then
                    ops.mac(Cell(n, before, i, col), Cell(n, a[..], i, k), Cell(n, b[..], k, col))
                  else Cell(n, before, row, col)
    {
      FlatInRange(n, i, j);
      FlatInRange(n, k, j);
      ghost var was := c[..];
      c[Flat(n, i, j)] := ops.mac(c[Flat(n, i, j)], aik, b[Flat(n, k, j)]);
      forall row: nat, col: nat | row < n && col < n
        ensures Cell(n, c[..], row, col) == if row == i && col == j then c[Flat(n, i, j)] else Cell(n, was, row, col)
      {
        FlatInRange(n, row, col);
        FlatInjective(n, row, col, i, j);
      }
    }
  }

  /** The i-k-j product: mulIntMat and mulFloatMat. Every cell sees its terms in the order of k. */
  method Multiply<F>(ops: Ops<F>, c: array<F>, a: array<F>, b: array<F>, n: nat)
    requires c.Length == a.Length == b.Length == n * n && c != a && c != b
    modifies c
    ensures Accumulated(ops, n, a[..], b[..], old(c[..]), c[..])
  {
    hide Cell;
    ghost var before := c[..];
    for i := 0 to n
      invariant forall row: nat, col: nat :: row < n && col < n ==>
                  Cell(n, c[..], row, col) == Dot(ops, n, a[..], b[..], row, col, Cell(n, before, row, col),
                                                  if row < i then n else 0)
    {
      for k := 0 to n
        invariant forall row: nat, col: nat :: row < n && col < n ==>
                    Cell(n, c[..], row, col) == Dot(ops, n, a[..], b[..], row, col, Cell(n, before, row, col),
                                                    if row < i then n else if row == i then k else 0)
      {
        AddTerms(ops, c, a, b, n, i, k);
      }
    }
  }

  /** dotIntRow and dotFloatRow. */
  method DotRow<F>(ops: Ops<F>, a: array<F>, b: array<F>, row: nat, col: nat, n: nat) returns (s: F)
    requires a.Length == b.Length == n * n && row < n && col < n
    ensures s == Dot(ops, n, a[..], b[..], row, col, ops.zero, n)
  {
    s := ops.zero;
    for k := 0 to n
      invariant s == Dot(ops, n, a[..], b[..], row, col, ops.zero, k)
    {
      FlatInRange(n, row, k);
      FlatInRange(n, k, col);
      s := ops.mac(s, a[Flat(n, row, k)], b[Flat(n, k, col)]);
    }
  }

  /** c is the matrix of dot products. */
  ghost predicate IsProduct<F>(ops: Ops<F>, n: nat, a: seq<F>, b: seq<F>, c: seq<F>) {
    && |a| == |b| == |c| == n * n
    && forall row: nat, col: nat :: row < n && col < n ==>
         Cell(n, c, row, col) == Dot(ops, n, a, b, row, col, ops.zero, n)
  }

  /** What Verify looks at: the first and the last cell, and all cells for size 64. */
  ghost predicate Accepts<F>(ops: Ops<F>, n: nat, a: seq<F>, b: seq<F>, c: seq<F>)
    requires n > 0 && |a| == |b| == n * n
  {
    && |c| == n * n
    && ops.close(Cell(n, c, 0, 0), Dot(ops, n, a, b, 0, 0, ops.zero, n))
    && ops.close(Cell(n, c, n - 1, n - 1), Dot(ops, n, a, b, n - 1, n - 1, ops.zero, n))
    && (n == MAT_SMALL ==>
          forall row: nat, col: nat :: row < n && col < n ==>
            ops.close(Cell(n, c, row, col), Dot(ops, n, a, b, row, col, ops.zero, n)))
  }

  /** From a cleared buffer the in-place product gives every cell exactly its dot product, whatever the arithmetic. */
  lemma ClearedGivesProduct<F>(ops: Ops<F>, n: nat, a: seq<F>, b: seq<F>, before: seq<F>, c: seq<F>)
    requires Accumulated(ops, n, a, b, before, c)
    requires forall k :: 0 <= k < |before| ==> before[k] == ops.zero
    ensures IsProduct(ops, n, a, b, c)
  {
    forall row: nat, col: nat | row < n && col < n
      ensures Cell(n, before, row, col) == ops.zero
    {
      FlatInRange(n, row, col);
    }
  }

  /** Where a value is close to itself, Verify accepts the product. */
  lemma ProductAccepted<F(!new)>(ops: Ops<F>, n: nat, a: seq<F>, b: seq<F>, c: seq<F>)
    requires n > 0 && IsProduct(ops, n, a, b, c)
    requires forall x :: ops.close(x, x)
    ensures Accepts(ops, n, a, b, c)
  {
  }

  ghost predicate AllClose<F>(ops: Ops<F>, s: seq<F>, t: seq<F>)
    requires |s| == |t|
  {
    forall k :: 0 <= k < |s| ==> ops.close(s[k], t[k])
  }

  lemma FlatOnto(n: nat, k: nat)
    requires n > 0 && k < n * n
    ensures k / n < n && k % n < n && Flat(n, k / n, k % n) == k
  {
  }

  /** Comparing the flat arrays compares the cells. */
  lemma CloseCellByCell<F>(ops: Ops<F>, n: nat, s: seq<F>, t: seq<F>)
    requires n > 0 && |s| == |t| == n * n
    ensures AllClose(ops, s, t) <==>
              forall row: nat, col: nat :: row < n && col < n ==> ops.close(Cell(n, s, row, col), Cell(n, t, row, col))
  {
    hide Flat;
    if AllClose(ops, s, t) {
      forall row: nat, col: nat | row < n && col < n
        ensures ops.close(Cell(n, s, row, col), Cell(n, t, row, col))
      {
        FlatInRange(n, row, col);
      }
    } else {
      var k: nat :| k < |s| && !ops.close(s[k], t[k]);
      FlatOnto(n, k);
      assert Cell(n, s, k / n, k % n) == s[k] && Cell(n, t, k / n, k % n) == t[k];
    }
  }

  /** The benchmark for one element type; fillA and fillB give the inputs by flat position. */
  class Bench<F(==)> {
    const ops: Ops<F>
    const n: nat
    const a: array<F>
    const b: array<F>
    const c: array<F>

    ghost predicate Valid() {
      n > 0 && a.Length == b.Length == c.Length == n * n && c != a && c != b
    }

    constructor Setup(ops: Ops<F>, fillA: nat -> F, fillB: nat -> F, n: int)
      ensures Valid() && this.ops == ops && fresh(a) && fresh(b) && fresh(c)
      ensures this.n == if n <= 0 then 256 else n
      ensures forall k :: 0 <= k < this.n * this.n ==> a[k] == fillA(k) && b[k] == fillB(k)
    {
      var size := if n <= 0 then MAT_MEDIUM else n;
      this.ops := ops;
      this.n := size;
      this.a := new F[size * size](k requires k >= 0 => fillA(k));
      this.b := new F[size * size](k requires k >= 0 => fillB(k));
      this.c := new F[size * size](_ => ops.zero);
    }

    method Run() returns (result: array<F>)
      requires Valid()
      modifies c
      ensures result == c && IsProduct(ops, n, a[..], b[..], result[..])
    {
      for k := 0 to c.Length
        invariant forall m :: 0 <= m < k ==> c[m] == ops.zero
      {
        c[k] := ops.zero;
      }
      ghost var cleared := c[..];
      Multiply(ops, c, a, b, n);
      ClearedGivesProduct(ops, n, a[..], b[..], cleared, c[..]);
      return c;
    }

    /** The full check of a small matrix against a second product. */
    method VerifyAll(result: seq<F>) returns (ok: bool)
      requires Valid() && |result| == n * n
      ensures ok <==> forall row: nat, col: nat :: row < n && col < n ==>
                        ops.close(Cell(n, result, row, col), Dot(ops, n, a[..], b[..], row, col, ops.zero, n))
    {
      hide Dot;
      var ref := new F[n * n](_ => ops.zero);
      ghost var cleared := ref[..];
      Multiply(ops, ref, a, b, n);
      ClearedGivesProduct(ops, n, a[..], b[..], cleared, ref[..]);
      CloseCellByCell(ops, n, result, ref[..]);
      hide Cell;
      for i := 0 to ref.Length
        invariant forall k :: 0 <= k < i ==> ops.close(result[k], ref[k])
      {
        if !ops.close(result[i], ref[i]) {
          assert ref[..][i] == ref[i];
          return false;
        }
      }
      return true;
    }

    method Verify(result: seq<F>) returns (ok: bool)
      requires Valid()
      ensures ok <==> Accepts(ops, n, a[..], b[..], result)
    {
      hide Dot;
      if |result| != n * n {
        return false;
      }
      var first := DotRow(ops, a, b, 0, 0, n);
      FlatInRange(n, 0, 0);
      assert result[0] == Cell(n, result, 0, 0);
      if !ops.close(result[0], first) {
        return false;
      }
      var last := DotRow(ops, a, b, n - 1, n - 1, n);
      FlatInRange(n, n - 1, n - 1);
      assert n * n - 1 == Flat(n, n - 1, n - 1);
      if !ops.close(result[n * n - 1], last) {
        return false;
      }
      if n == MAT_SMALL {
        ok := VerifyAll(result);
        return ok;
      }
      return true;
    }
  }

  /** A run's result passes the check of a second instance that was set up on its own, whatever the arithmetic. */
  method CrossCheck<F(==, !new)>(ops: Ops<F>, fillA: nat -> F, fillB: nat -> F, n: int) returns (ok: bool)
    requires forall x :: ops.close(x, x)
    ensures ok
  {
    hide IsProduct, Accepts;
    var first := new Bench.Setup(ops, fillA, fillB, n);
    var second := new Bench.Setup(ops, fillA, fillB, n);
    var result := first.Run();
    assert first.a[..] == second.a[..] && first.b[..] == second.b[..];
    ProductAccepted(ops, first.n, first.a[..], first.b[..], result[..]);
    ok := second.Verify(result[..]);
  }

  // 64-bit integers.

  const WORD := 0x1_0000_0000_0000_0000
  const HALF := 0x8000_0000_0000_0000

  /** Two's complement: the int64 congruent to x modulo 2^64. */
  function Wrap(x: int): (w: int)
    ensures -HALF <= w < HALF
    ensures (w - x) % WORD == 0
    ensures -HALF <= x < HALF ==> w == x
  {
    (x + HALF) % WORD - HALF
  }

  const INT_OPS: Ops<int> := Ops(0, (s, x, y) => Wrap(s + Wrap(x * y)), (x, y) => x == y)

  ghost predicate Int64s(m: seq<int>) {
    forall k :: 0 <= k < |m| ==> -HALF <= m[k] < HALF
  }

  lemma ProductIsInt64(n: nat, a: seq<int>, b: seq<int>, c: seq<int>)
    requires n > 0 && IsProduct(INT_OPS, n, a, b, c)
    ensures Int64s(c)
  {
    forall k: nat | k < |c|
      ensures -HALF <= c[k] < HALF
    {
      FlatOnto(n, k);
      assert c[k] == Cell(n, c, k / n, k % n);
    }
  }

  lemma AcceptedIsProduct(n: nat, a: seq<int>, b: seq<int>, d: seq<int>)
    requires n == 1 || n == MAT_SMALL
    requires |a| == |b| == n * n && Accepts(INT_OPS, n, a, b, d)
    ensures IsProduct(INT_OPS, n, a, b, d)
  {
  }

  /** Changing the second cell of the product to another 64-bit value goes unnoticed. */
  lemma WrongAccepted(n: nat, a: seq<int>, b: seq<int>, c: seq<int>) returns (d: seq<int>)
    requires n > 1 && n != MAT_SMALL && IsProduct(INT_OPS, n, a, b, c)
    ensures Int64s(d) && Accepts(INT_OPS, n, a, b, d) && !IsProduct(INT_OPS, n, a, b, d)
  {
    ProductIsInt64(n, a, b, c);
    FlatInRange(n, 0, 1);
    d := c[Flat(n, 0, 1) := if Cell(n, c, 0, 1) == 0 then 1 else 0];
    FlatInRange(n, n - 1, n - 1);
    FlatInRange(n, 0, 0);
    FlatInjective(n, 0, 0, 0, 1);
    FlatInjective(n, n - 1, n - 1, 0, 1);
    assert Cell(n, d, 0, 1) != Cell(n, c, 0, 1);
    assert Cell(n, d, 0, 0) == Cell(n, c, 0, 0);
    assert Cell(n, d, n - 1, n - 1) == Cell(n, c, n - 1, n - 1);
  }

  /**
   * Verify pins down the product among all 64-bit matrices exactly for sizes 1 and 64: any other size has cells it does
   * not look at.
   */
  lemma AcceptsOnlyProductsIff(n: nat, a: seq<int>, b: seq<int>, c: seq<int>)
    requires n > 0 && IsProduct(INT_OPS, n, a, b, c)
    ensures (forall d :: Int64s(d) && Accepts(INT_OPS, n, a, b, d) ==> IsProduct(INT_OPS, n, a, b, d))
            <==> n == 1 || n == 64
  {
    if n == 1 || n == MAT_SMALL {
      forall d | Int64s(d) && Accepts(INT_OPS, n, a, b, d)
        ensures IsProduct(INT_OPS, n, a, b, d)
      {
        AcceptedIsProduct(n, a, b, d);
      }
    } else {
      var d := WrongAccepted(n, a, b, c);
    }
  }

  /** The exact sum of the first k products. */
  function DotSum(n: nat, a: seq<int>, b: seq<int>, row: nat, col: nat, k: nat): int
    requires |a| == |b| == n * n && row < n && col < n && k <= n
  {
    if k == 0 then 0 else DotSum(n, a, b, row, col, k - 1) + Cell(n, a, row, k - 1) * Cell(n, b, k - 1, col)
  }

  lemma WholeTurns(x: int, k: int)
    ensures Wrap(x + WORD * k) == Wrap(x)
  {
    assert x + WORD * k + HALF == (x + HALF) % WORD + WORD * ((x + HALF) / WORD + k);
  }

  lemma WrapAbsorbs(s: int, x: int)
    ensures Wrap(Wrap(s) + Wrap(x)) == Wrap(s + x)
  {
    var k, m := (s + HALF) / WORD, (x + HALF) / WORD;
    assert Wrap(s) == s - WORD * k && Wrap(x) == x - WORD * m;
    WholeTurns(Wrap(s) + Wrap(x), k + m);
  }

  /** Machine arithmetic computes the exact sum modulo 2^64, for every size and contents. */
  lemma {:induction false} DotModulo(n: nat, a: seq<int>, b: seq<int>, row: nat, col: nat, start: int, k: nat)
    requires |a| == |b| == n * n && row < n && col < n && k <= n
    requires start == Wrap(start)
    ensures Dot(INT_OPS, n, a, b, row, col, start, k) == Wrap(start + DotSum(n, a, b, row, col, k))
  {
    if k > 0 {
      hide Wrap, Cell;
      DotModulo(n, a, b, row, col, start, k - 1);
      var p := Cell(n, a, row, k - 1) * Cell(n, b, k - 1, col);
      WrapAbsorbs(start + DotSum(n, a, b, row, col, k - 1), p);
    }
  }

  lemma ProductBounded(x: int, y: int)
    requires 0 <= x <= 7 && 0 <= y <= 8
    ensures 0 <= x * y <= 56
  {
  }

  lemma {:induction false} DotSumBounded(n: nat, a: seq<int>, b: seq<int>, row: nat, col: nat, k: nat)
    requires |a| == |b| == n * n && row < n && col < n && k <= n
    requires forall i :: 0 <= i < n * n ==> 0 <= a[i] <= 7 && 0 <= b[i] <= 8
    ensures 0 <= DotSum(n, a, b, row, col, k) <= 56 * k
  {
    if k > 0 {
      DotSumBounded(n, a, b, row, col, k - 1);
      FlatInRange(n, row, k - 1);
      FlatInRange(n, k - 1, col);
      ProductBounded(Cell(n, a, row, k - 1), Cell(n, b, k - 1, col));
    }
  }

  /**
   * On the benchmark's own inputs nothing overflows: each partial sum of each cell is the exact sum, at most 56 a term.
   */
  lemma NoOverflow(n: nat, a: seq<int>, b: seq<int>, c: seq<int>, row: nat, col: nat, k: nat)
    requires IsProduct(INT_OPS, n, a, b, c) && 56 * n < HALF && row < n && col < n && k <= n
    requires forall i: nat :: i < n * n ==> a[i] == i % 7 + 1 && b[i] == i % 7 + 2
    ensures Dot(INT_OPS, n, a, b, row, col, 0, k) == DotSum(n, a, b, row, col, k)
    ensures 0 <= DotSum(n, a, b, row, col, k) <= 56 * k
    ensures Cell(n, c, row, col) == DotSum(n, a, b, row, col, n)
  {
    forall i | 0 <= i < n * n
      ensures 0 <= a[i] <= 7 && 0 <= b[i] <= 8
    {
      assert a[i as nat] == i % 7 + 1 && b[i] == i % 7 + 2;
    }
    DotModulo(n, a, b, row, col, 0, k);
    DotSumBounded(n, a, b, row, col, k);
    DotModulo(n, a, b, row, col, 0, n);
    DotSumBounded(n, a, b, row, col, n);
  }
}
