/** The discover handler's random pick `Math.floor(Math.random() * n)`. */
module Picking {

  /** A value `Math.random()` can return. */
  type Roll = r: real | 0.0 <= r < 1.0

  /** The index picked for a list of `n` results: always a valid index. */
  function RandomIndex(roll: Roll, n: nat): (k: nat)
    requires n > 0
    ensures k < n
    ensures k as real <= roll * n as real < k as real + 1.0
  {
    ProductBelow(roll, n);
    (roll * n as real).Floor
  }

  /** A roll below 1 scales `n` to something below `n`, proved by adding one roll at a time. */
  lemma {:induction false} ProductBelow(roll: Roll, n: nat)
    requires n > 0
    ensures 0.0 <= roll * n as real < n as real
    decreases n
  {
    if n > 1 {
      ProductBelow(roll, n - 1);
      assert roll * n as real == roll * (n - 1) as real + roll;
    }
  }

  /** Every index of the list is picked by some roll, so no result is unreachable. */
  lemma EveryIndexReachable(k: nat, n: nat)
    requires k < n
    ensures 0.0 <= k as real / n as real < 1.0
    ensures RandomIndex(k as real / n as real, n) == k
  {
  }
}
