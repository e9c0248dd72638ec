/**
  How many attempts four levels allow when each failed attempt at one level leaves n chances at the next:
  n workers with a snapshot of a row each, or n queues that a message is published to again.
*/
module Levels {
  /** The attempts that one chance at level k can still lead to. */
  function Weight(n: nat, k: int): (g: nat)
    decreases 4 - k
  {
    if k >= 4 then 0 else 1 + n * Weight(n, k + 1)
  }

  function Bound(n: nat): nat {
    n + n * n + n * n * n + n * n * n * n
  }

  lemma WeightZero(n: nat)
    ensures n * Weight(n, 0) == Bound(n)
  {
    assert Weight(n, 3) == 1 + n * Weight(n, 4) == 1;
    assert Weight(n, 2) == 1 + n;
    assert Weight(n, 1) == 1 + n * (1 + n) == 1 + n + n * n;
    assert n * (n * n) == n * n * n;
    assert n * (1 + n + n * n) == n + n * n + n * n * n;
    assert n * (n * n * n) == n * n * n * n;
    assert n * (1 + n + n * n + n * n * n) == n + n * n + n * n * n + n * n * n * n;
  }
}
