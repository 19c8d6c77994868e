/** Running sums of the counts of a histogram. */
module Counts {
  import opened Bits

  /** The sum of the first n counts. */
  function Running(counts: seq<Uint64>, n: nat): nat
    requires n <= |counts|
  {
    if n == 0 then 0 else Running(counts, n - 1) + counts[n - 1]
  }

  lemma {:induction false} RunningGrows(counts: seq<Uint64>, m: nat, n: nat)
    requires m <= n <= |counts|
    ensures Running(counts, m) <= Running(counts, n)
  {
    if m < n {
      RunningGrows(counts, m, n - 1);
    }
  }
}
