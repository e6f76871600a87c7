/** Induction on the number of calls or searches. */
module Chains {
  import opened Words

  /** What holds at the start, and is kept from each number to the next, holds for every number. */
  lemma {:induction false} Along(holds: nat -> bool, n: nat)
    requires holds(0)
    requires forall i: nat {:trigger Look(RUN, i)} :: Look(RUN, i) && holds(i) ==> holds(i + 1)
    ensures holds(n)
  {
    if n > 0 {
      Along(holds, n - 1);
      assert Look(RUN, n - 1);
    }
  }
}
