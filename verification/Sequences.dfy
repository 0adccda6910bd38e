/** Facts about sequences of numbers that several components share. */
module Sequences {

  /** Distinct numbers below `n` are at most `n` many. */
  lemma {:induction false} Pigeonhole(ids: seq<nat>, n: nat)
    requires forall i: nat | i < |ids| :: ids[i] < n
    requires forall i: nat, j: nat | i < j < |ids| :: ids[i] != ids[j]
    ensures |ids| <= n
    decreases n
  {
    if ids != [] {
      assert ids[0] < n;
      if p: nat :| p < |ids| && ids[p] == n - 1 {
        var rest := ids[..p] + ids[p + 1..];
        Pigeonhole(rest, n - 1);
      } else {
        Pigeonhole(ids, n - 1);
      }
    }
  }
}
