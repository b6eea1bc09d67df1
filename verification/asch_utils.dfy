/** The second copy of the rollover helpers, kept in the scheduler's own
    utility header. Its bodies are the same statements as the utility
    library's; the contracts tie each one to the shared definition. */
module AschUtils {
  import UtilsMisc

  method IncrementIndexWithRollover(index: nat, maxLimit: nat, modulus: nat) returns (updated: nat)
    requires UtilsMisc.IsIndexModulus(modulus) && index < modulus
    ensures updated == UtilsMisc.Increment(index, maxLimit, modulus)
    ensures maxLimit > 0 ==> updated < maxLimit
  {
    updated := (index + 1) % modulus;
    if updated >= maxLimit {
      updated := 0;
    }
  }

  method DecrementIndexWithRollover(index: nat, maxLimit: nat, modulus: nat) returns (updated: nat)
    requires UtilsMisc.IsIndexModulus(modulus) && index < modulus && maxLimit < UtilsMisc.SIZE_MODULUS
    ensures updated == UtilsMisc.Decrement(index, maxLimit, modulus)
    ensures 0 < maxLimit <= modulus && index < maxLimit ==> updated < maxLimit
  {
    if index == 0 {
      updated := UtilsMisc.SizeMinusOne(maxLimit) % modulus;
    } else {
      updated := index - 1;
    }
  }
}
