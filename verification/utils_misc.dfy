/** Wrap-around index arithmetic of the utility library.

    The source updates an index of an unsigned integer type through a
    reference; `modulus` is 2^width of that type (the queue uses uint8_t, so
    256). `maxLimit` is a `std::size_t`, so it is below 2^64. */
module UtilsMisc {
  const SIZE_MODULUS: nat := 0x1_0000_0000_0000_0000

  /** The unsigned widths an index may have. */
  predicate IsIndexModulus(modulus: nat) {
    modulus == 0x100 || modulus == 0x1_0000 || modulus == 0x1_0000_0000 || modulus == SIZE_MODULUS
  }

  /** `++index` wraps at the type's width; a result at or beyond the limit
      becomes 0. */
  function Increment(index: nat, maxLimit: nat, modulus: nat): (r: nat)
    requires IsIndexModulus(modulus) && index < modulus
    ensures r < modulus
    ensures maxLimit > 0 ==> r < maxLimit
  {
    var next := (index + 1) % modulus;
    if next >= maxLimit then 0 else next
  }

  /** 0 becomes `maxLimit - 1` computed in `std::size_t` and then cast to the
      index type; any other index goes down by one. */
  function Decrement(index: nat, maxLimit: nat, modulus: nat): (r: nat)
    requires IsIndexModulus(modulus) && index < modulus && maxLimit < SIZE_MODULUS
    ensures r < modulus
  {
    if index == 0 then SizeMinusOne(maxLimit) % modulus else index - 1
  }

  /** `maxLimit - 1` in `std::size_t`: 0 wraps to the largest value. */
  function SizeMinusOne(maxLimit: nat): nat
    requires maxLimit < SIZE_MODULUS
  {
    if maxLimit == 0 then SIZE_MODULUS - 1 else maxLimit - 1
  }

  /** The in-place update of `IncrementIndexWithRollover`. */
  method IncrementIndexWithRollover(index: nat, maxLimit: nat, modulus: nat) returns (updated: nat)
    requires IsIndexModulus(modulus) && index < modulus
    ensures updated == Increment(index, maxLimit, modulus)
  {
    updated := (index + 1) % modulus;
    if updated >= maxLimit {
      updated := 0;
    }
  }

  /** The in-place update of `DecrementIndexWithRollover`. */
  method DecrementIndexWithRollover(index: nat, maxLimit: nat, modulus: nat) returns (updated: nat)
    requires IsIndexModulus(modulus) && index < modulus && maxLimit < SIZE_MODULUS
    ensures updated == Decrement(index, maxLimit, modulus)
  {
    if index == 0 {
      updated := SizeMinusOne(maxLimit) % modulus;
    } else {
      updated := index - 1;
    }
  }

  /** Within a limit the index type can hold, increment is the successor
      modulo the limit. */
  lemma IncrementIsCyclic(index: nat, maxLimit: nat, modulus: nat)
    requires IsIndexModulus(modulus) && index < maxLimit <= modulus
    ensures Increment(index, maxLimit, modulus) == (index + 1) % maxLimit
  {
    ModOfOneWrap(maxLimit, maxLimit);
    if index + 1 < maxLimit {
      ModOfSmaller(index + 1, modulus);
      ModOfSmaller(index + 1, maxLimit);
    } else if index + 1 < modulus {
      ModOfSmaller(index + 1, modulus);
    } else {
      ModOfOneWrap(modulus, modulus);
    }
  }

  /** Within a limit the index type can hold, decrement is the predecessor
      modulo the limit. */
  lemma DecrementIsCyclic(index: nat, maxLimit: nat, modulus: nat)
    requires IsIndexModulus(modulus) && index < maxLimit <= modulus && maxLimit < SIZE_MODULUS
    ensures Decrement(index, maxLimit, modulus) == (index + maxLimit - 1) % maxLimit
  {
    if index == 0 {
      ModOfSmaller(maxLimit - 1, modulus);
      ModOfSmaller(maxLimit - 1, maxLimit);
    } else {
      ModOfOneWrap(index + maxLimit - 1, maxLimit);
    }
  }

  /** An empty counter wraps to the largest value of the index type. */
  lemma DecrementOfZeroLimit(modulus: nat)
    requires IsIndexModulus(modulus)
    ensures Decrement(0, 0, modulus) == modulus - 1
  {
  }

  lemma ModOfSmaller(x: nat, y: nat)
    requires x < y
    ensures x % y == x
  {
  }

  lemma ModOfOneWrap(x: nat, y: nat)
    requires y <= x < 2 * y
    ensures x % y == x - y
  {
  }

  /** On [0, maxLimit) with a limit the index type can hold, decrement undoes
      increment ... */
  lemma DecrementUndoesIncrement(index: nat, maxLimit: nat, modulus: nat)
    requires IsIndexModulus(modulus) && index < maxLimit <= modulus && maxLimit < SIZE_MODULUS
    ensures Decrement(Increment(index, maxLimit, modulus), maxLimit, modulus) == index
  {
    IncrementIsCyclic(index, maxLimit, modulus);
    var next := Increment(index, maxLimit, modulus);
    DecrementIsCyclic(next, maxLimit, modulus);
    if index + 1 < maxLimit {
      ModOfSmaller(index + 1, maxLimit);
      ModOfOneWrap(index + maxLimit, maxLimit);
    } else {
      ModOfOneWrap(maxLimit, maxLimit);
      ModOfSmaller(maxLimit - 1, maxLimit);
    }
  }

  /** ... and increment undoes decrement. */
  lemma IncrementUndoesDecrement(index: nat, maxLimit: nat, modulus: nat)
    requires IsIndexModulus(modulus) && index < maxLimit <= modulus && maxLimit < SIZE_MODULUS
    ensures Increment(Decrement(index, maxLimit, modulus), maxLimit, modulus) == index
  {
    DecrementIsCyclic(index, maxLimit, modulus);
    var previous := Decrement(index, maxLimit, modulus);
    IncrementIsCyclic(previous, maxLimit, modulus);
    if index == 0 {
      ModOfSmaller(maxLimit - 1, maxLimit);
      ModOfOneWrap(maxLimit, maxLimit);
    } else {
      ModOfOneWrap(index + maxLimit - 1, maxLimit);
      ModOfSmaller(index, maxLimit);
    }
  }
}
