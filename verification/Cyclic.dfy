/** Positions in a ring of `n` slots, and integer division. */
module Cyclic {

  type Positive = n: nat | n > 0 witness 1

  /** The position after `p`, going round. */
  function After(p: nat, n: nat): (q: nat)
    requires p < n
    ensures q == (p + 1) % n && q < n
  {
    if p + 1 == n then 0 else p + 1
  }

  /** The position `i`, which may be one round too low. */
  function Wrap(i: int, n: nat): int {
    if i < 0 then i + n else i
  }

  lemma ModIs(i: int, n: nat)
    requires i + n >= 0 && i < n
    ensures i % n == Wrap(i, n)
  {
    if i < 0 {
      assert i == n * (-1) + (i + n);
      DivModUnique(i, n, -1, i + n);
    } else {
      DivModUnique(i, n, 0, i);
    }
  }

  /** Division as C does it: towards zero. */
  function TruncDiv(a: int, d: nat): int
    requires d > 0
  {
    if a >= 0 then a / d else -((-a) / d)
  }

  lemma DivModUnique(x: int, n: nat, k: int, r: nat)
    requires x == n * k + r && r < n
    ensures x % n == r && x / n == k
  {
    var d, e := x / n, x % n;
    assert n * (k - d) == e - r;
    if k > d {
      MulAtLeast(n, k - d);
    } else if k < d {
      MulAtLeast(n, d - k);
    }
  }

  lemma MulAtLeast(m: nat, n: nat)
    requires n > 0
    ensures m * n >= m
  {
  }
}
