// Binary logarithm, for depth and work bounds.
module Logarithms {

  ghost function Pow2(d: nat): (r: nat)
    ensures r >= 1
  {
    if d == 0 then 1 else 2 * Pow2(d - 1)
  }

  lemma {:induction false} Pow2Monotone(c: nat, d: nat)
    requires c <= d
    ensures Pow2(c) <= Pow2(d)
  {
    if c < d { Pow2Monotone(c, d - 1); }
  }

  /** The largest d with Pow2(d) <= n. */
  ghost function Log2(n: nat): (d: nat)
    requires n > 0
    ensures Pow2(d) <= n < Pow2(d + 1)
  {
    if n == 1 then 0 else 1 + Log2(n / 2)
  }

  lemma {:induction false} Log2AtLeast(d: nat, n: nat)
    requires n > 0 && Pow2(d) <= n
    ensures d <= Log2(n)
  {
    if d > 0 { Log2AtLeast(d - 1, n / 2); }
  }
}
