/**
 * The positional jQuery selectors the carousel builds as strings
 * (`:gt(a)`, `:lt(a)`, `:eq(a)`) applied to a list of n elements.
 * A negative argument counts from the end (a + n); positions outside
 * 0 .. n-1 are ignored, so `:eq(a)` selects Anchor(a, n) when that is a
 * position and nothing otherwise.  The predicates are the selectors' definitions
 * (every k after, or before, the argument); the functions compute the
 * contiguous run they select.
 */
module Selectors {

  /** The argument of a positional selector once a negative value is taken from the end. */
  function Anchor(a: int, n: nat): int {
    if a < 0 then a + n else a
  }

  /** Whether `:gt(a)` selects position k: every position after the argument. */
  predicate GtSelects(a: int, n: nat, k: int) {
    0 <= k < n && k > Anchor(a, n)
  }

  /** Whether `:lt(a)` selects position k: every position before the argument. */
  predicate LtSelects(a: int, n: nat, k: int) {
    0 <= k < n && k < Anchor(a, n)
  }

  /** Whether `:gt(a)` selects any position at all. */
  ghost predicate GtSelectsSome(a: int, n: nat) {
    exists k :: GtSelects(a, n, k)
  }

  /** Whether `:lt(a)` selects any position at all. */
  ghost predicate LtSelectsSome(a: int, n: nat) {
    exists k :: LtSelects(a, n, k)
  }

  /** First position selected by `:gt(a)`; it selects GtStart(a, n) .. n-1. */
  function GtStart(a: int, n: nat): (p: nat)
    ensures p <= n
    ensures forall k :: GtSelects(a, n, k) <==> p <= k < n
  {
    var s := Anchor(a, n);
    if s + 1 <= 0 then 0 else if s + 1 >= n then n else s + 1
  }

  /** Number of positions selected by `:lt(a)`; it selects 0 .. LtEnd(a, n)-1. */
  function LtEnd(a: int, n: nat): (q: nat)
    ensures q <= n
    ensures forall k :: LtSelects(a, n, k) <==> 0 <= k < q
  {
    var s := Anchor(a, n);
    if s <= 0 then 0 else if s >= n then n else s
  }
}
