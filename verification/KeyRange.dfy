/** The generators' loop over keys: a 64-bit counter that runs from the lowest key up to and with the highest. */
module KeyRange {
  import opened Bytes

  /** The counter after k rounds. */
  function Counter(low: uint64, k: nat): uint64 { (low + k) % TWO_64 }

  /** The loop ends exactly when the highest key is not the largest number; else the counter wraps below it again. */
  lemma LoopEndsIff(low: uint64, high: uint64)
    ensures (exists k: nat :: Counter(low, k) > high) <==> high < TWO_64 - 1
  {
    if high < TWO_64 - 1 {
      var k := if low > high then 0 else high + 1 - low;
      assert Counter(low, k) == low + k;
    }
  }

  /** Until it ends, round k handles key low + k: each key of the range once, in order. */
  lemma VisitsEachKey(low: uint64, high: uint64, k: nat)
    requires low <= high < TWO_64 - 1
    ensures Counter(low, k) == low + k <= high <==> k <= high - low
    ensures Counter(low, high - low + 1) > high
  {
    assert k <= high - low ==> low + k < TWO_64;
  }
}
