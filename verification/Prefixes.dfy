/** From the steps of a run to the run. */
module Prefixes {

  /**
   * If what is good before step i is good after it exactly when the step is not bad, then everything up to n is good
   * exactly when no step before n is bad.
   */
  lemma {:induction false} GoodIffNoStepBad(n: nat, good: nat -> bool, bad: nat -> bool)
    requires good(0)
    requires forall i :: 0 <= i < n && good(i) ==> (good(i + 1) <==> !bad(i))
    ensures (forall i :: 0 <= i <= n ==> good(i)) <==> (forall i :: 0 <= i < n ==> !bad(i))
  {
    if n == 0 {
    } else {
      GoodIffNoStepBad(n - 1, good, bad);
      assert good(n - 1) ==> (good(n - 1 + 1) <==> !bad(n - 1));
    }
  }
}
