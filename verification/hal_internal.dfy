/** The polling helpers of the STM32F429ZI hardware layer.

    Each helper counts a timeout down from half the system clock frequency
    while the watched register does not yet show the wanted state. The
    register is volatile: every test of the loop condition reads it afresh,
    so the register is given as the sequence of values successive reads
    return (`register(0)` is the first read). The system clock frequency, which
    the source asks the clock driver for, is a parameter. Each helper
    returns `true` on a timeout and `false` on success. */
module HalInternal {
  import Bits

  /** The initial value of the down-counter: the frequency shifted right by one. */
  function TimeoutBound(sysClockFrequency: bv32): nat {
    (sysClockFrequency >> 1) as nat
  }

  /** Some read before the counter runs out shows bit `bit` set. */
  ghost predicate SetWithin(register: nat -> bv32, bit: bv32, bound: nat)
    requires bit < 32
  {
    exists i :: 0 <= i < bound && Bits.GetBit(register(i), bit)
  }

  /** Some read before the counter runs out shows bit `bit` clear. */
  ghost predicate ClearWithin(register: nat -> bv32, bit: bv32, bound: nat)
    requires bit < 32
  {
    exists i :: 0 <= i < bound && !Bits.GetBit(register(i), bit)
  }

  /** Some read before the counter runs out holds `pattern` under `mask`. */
  ghost predicate PatternWithin(register: nat -> bv32, mask: bv32, pattern: bv32, bound: nat) {
    exists i :: 0 <= i < bound && Bits.CompareMasked(register(i), mask, pattern)
  }

  /** Waits for bit `bit` to be set; reports a timeout exactly when no read
      before the counter reached zero showed the bit set. */
  method WaitForBitToSet(sysClockFrequency: bv32, register: nat -> bv32, bit: bv32) returns (isTimeout: bool)
    requires bit < 32
    ensures !isTimeout <==> SetWithin(register, bit, TimeoutBound(sysClockFrequency))
  {
    var timeout: nat := TimeoutBound(sysClockFrequency);
    var count: nat := 0;  // how many reads have been made
    while !Bits.GetBit(register(count), bit) && timeout > 0
      invariant count + timeout == TimeoutBound(sysClockFrequency)
      invariant forall i :: 0 <= i < count ==> !Bits.GetBit(register(i), bit)
      decreases timeout
    {
      timeout := timeout - 1;
      count := count + 1;
    }
    isTimeout := timeout == 0;
  }

  /** Waits for bit `bit` to be cleared; reports a timeout exactly when no
      read before the counter reached zero showed the bit clear. */
  method WaitForBitToClear(sysClockFrequency: bv32, register: nat -> bv32, bit: bv32) returns (isTimeout: bool)
    requires bit < 32
    ensures !isTimeout <==> ClearWithin(register, bit, TimeoutBound(sysClockFrequency))
  {
    var timeout: nat := TimeoutBound(sysClockFrequency);
    var count: nat := 0;  // how many reads have been made
    while Bits.GetBit(register(count), bit) && timeout > 0
      invariant count + timeout == TimeoutBound(sysClockFrequency)
      invariant forall i :: 0 <= i < count ==> Bits.GetBit(register(i), bit)
      decreases timeout
    {
      timeout := timeout - 1;
      count := count + 1;
    }
    isTimeout := timeout == 0;
  }

  /** Waits for the bits under `mask` to equal those of `pattern`; reports a
      timeout exactly when no read before the counter reached zero matched. */
  method WaitForBitPatternToSet(sysClockFrequency: bv32, register: nat -> bv32, mask: bv32, pattern: bv32)
    returns (isTimeout: bool)
    ensures !isTimeout <==> PatternWithin(register, mask, pattern, TimeoutBound(sysClockFrequency))
  {
    var timeout: nat := TimeoutBound(sysClockFrequency);
    var count: nat := 0;  // how many reads have been made
    while !Bits.CompareMasked(register(count), mask, pattern) && timeout > 0
      invariant count + timeout == TimeoutBound(sysClockFrequency)
      invariant forall i :: 0 <= i < count ==> !Bits.CompareMasked(register(i), mask, pattern)
      decreases timeout
    {
      timeout := timeout - 1;
      count := count + 1;
    }
    isTimeout := timeout == 0;
  }

  /** A register that does not change, as in the helpers' tests: with a
      nonzero counter the wait succeeds exactly when the bit is set. */
  lemma ConstantRegisterSet(value: bv32, bit: bv32, bound: nat)
    requires bit < 32 && bound > 0
    ensures SetWithin(_ => value, bit, bound) <==> Bits.GetBit(value, bit)
  {
    var register: nat -> bv32 := _ => value;
    if Bits.GetBit(value, bit) {
      assert Bits.GetBit(register(0), bit);
    }
  }

  /** ... and the wait for a clear bit succeeds exactly when it is clear. */
  lemma ConstantRegisterClear(value: bv32, bit: bv32, bound: nat)
    requires bit < 32 && bound > 0
    ensures ClearWithin(_ => value, bit, bound) <==> !Bits.GetBit(value, bit)
  {
    var register: nat -> bv32 := _ => value;
    if !Bits.GetBit(value, bit) {
      assert !Bits.GetBit(register(0), bit);
    }
  }

  /** A counter of zero (a system clock below 2 Hz) always reports a timeout. */
  lemma ZeroBoundTimesOut(register: nat -> bv32, bit: bv32, mask: bv32, pattern: bv32)
    requires bit < 32
    ensures !SetWithin(register, bit, 0) && !ClearWithin(register, bit, 0) && !PatternWithin(register, mask, pattern, 0)
  {
  }

  /** A longer window never turns a success into a timeout. */
  lemma SetWithinMonotonic(register: nat -> bv32, bit: bv32, bound: nat, longer: nat)
    requires bit < 32 && bound <= longer && SetWithin(register, bit, bound)
    ensures SetWithin(register, bit, longer)
  {
    var i :| 0 <= i < bound && Bits.GetBit(register(i), bit);
    assert 0 <= i < longer;
  }

  /** The default 16 MHz system clock gives a window of eight million reads. */
  lemma DefaultWindow()
    ensures TimeoutBound(16000000) == 8000000
  {
  }
}
