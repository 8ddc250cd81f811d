/**
 * The process-wide random generator (Random.Shared) made explicit. The
 * generator is a library object whose algorithm is not modelled; what the
 * scrubber relies on is only that the answer to a call Next(maxValue) lies in
 * the range that call asks for. An `Rng` fixes the answer to every call:
 * `draw(k, bound)` is the answer to the k-th call when it asks for a value
 * below `bound`.
 */
module SharedRandom {

  datatype Rng = Rng(draw: (nat, nat) -> nat)
  {
    /** Every answer lies below the bound it was asked for. */
    ghost predicate Valid() {
      forall k: nat, bound: nat :: 0 < bound ==> draw(k, bound) < bound
    }

    /**
     * Random.Next(maxValue) answered as the k-th call, for a maxValue the
     * generator accepts (it throws for a negative one): a value in
     * [0, maxValue), and 0 when maxValue is 0.
     */
    function Next(k: nat, maxValue: nat): (r: nat)
      requires Valid()
      ensures maxValue == 0 ==> r == 0
      ensures maxValue > 0 ==> r < maxValue
    {
      if maxValue == 0 then 0 else draw(k, maxValue)
    }
  }
}
