/** Linear probing on a power-of-two table: the cyclic walk that every probe loop makes. */
module Probing {

  /** (i + 1) & mask */
  function Next(i: nat, n: nat): (r: nat)
    requires i < n
    ensures r < n
  {
    if i + 1 == n then 0 else i + 1
  }

  /** Cell x lies on the upward walk from a to b, both ends included, wrapping past the last cell. */
  predicate Cyc(a: int, x: int, b: int) {
    if a <= b then a <= x <= b else x >= a || x <= b
  }

  /** Number of Next steps from a to b. */
  function Dist(a: nat, b: nat, n: nat): (d: nat)
    requires a < n && b < n
    ensures d < n
    ensures d == 0 <==> a == b
  {
    if a <= b then b - a else b - a + n
  }
}
