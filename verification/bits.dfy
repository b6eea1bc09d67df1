/** Bit-field helpers of the utility library over 32-bit registers.

    Positions are bv32 values below 32: a shift by 32 or more of a 32-bit
    value is undefined in the source language, so callers must stay below it.
    The source's `SetBit` and `SetBits` update their first argument through a
    reference; here they return the updated value and the register classes
    assign it back. */
module Bits {
  /** `1 << position`: the single-bit mask of `position`. */
  function Bit(position: bv32): bv32
    requires position < 32
  {
    1 << position
  }

  /** Whether bit `position` of `bitfield` is set. */
  function GetBit(bitfield: bv32, position: bv32): bool
    requires position < 32
  {
    (bitfield & Bit(position)) != 0
  }

  /** The field of `bitfield` found under `mask` once shifted down by `position`. */
  function GetBits(bitfield: bv32, position: bv32, mask: bv32): bv32
    requires position < 32
  {
    (bitfield >> position) & mask
  }

  /** Sets (state true) or clears (state false) bit `position`. */
  function SetBit(bitfield: bv32, position: bv32, state: bool): bv32
    requires position < 32
  {
    if state then bitfield | Bit(position) else bitfield & !Bit(position)
  }

  /** The masked update used by the clock and polling code with an already
      shifted mask: bits under `mask` take the pattern, all others stay. */
  function SetMasked(bitfield: bv32, mask: bv32, pattern: bv32): bv32
  {
    (bitfield & !mask) | (pattern & mask)
  }

  /** Writes `pattern` into the field `mask` at `position`. */
  function SetBits(bitfield: bv32, position: bv32, mask: bv32, pattern: bv32): bv32
    requires position < 32
  {
    SetMasked(bitfield, mask << position, pattern << position)
  }

  /** Whether the field `mask` at `position` holds `pattern` (pattern bits
      outside the mask are ignored). */
  function CompareBits(bitfield: bv32, position: bv32, mask: bv32, pattern: bv32): bool
    requires position < 32
  {
    ((bitfield >> position) & mask) == (pattern & mask)
  }

  /** The masked compare with an already shifted mask. */
  function CompareMasked(bitfield: bv32, mask: bv32, pattern: bv32): bool
  {
    (bitfield & mask) == (pattern & mask)
  }

  /** Bit(p) has exactly one bit set, and it is bit p. */
  lemma BitIsSingle(position: bv32)
    requires position < 32
    ensures (Bit(position) >> position) == 1
    ensures (Bit(position) & (Bit(position) - 1)) == 0
  {
  }

  /** GetBit reads bit `position` of the field. */
  lemma GetBitIsBit(bitfield: bv32, position: bv32)
    requires position < 32
    ensures GetBit(bitfield, position) <==> ((bitfield >> position) & 1) == 1
  {
  }

  /** A read field has no bits outside its mask. */
  lemma GetBitsWithinMask(bitfield: bv32, position: bv32, mask: bv32)
    requires position < 32
    ensures (GetBits(bitfield, position, mask) & !mask) == 0
  {
  }

  /** The masked update writes the pattern under the mask and nothing else. */
  lemma SetMaskedSpec(bitfield: bv32, mask: bv32, pattern: bv32)
    ensures (SetMasked(bitfield, mask, pattern) & mask) == (pattern & mask)
    ensures (SetMasked(bitfield, mask, pattern) & !mask) == (bitfield & !mask)
  {
  }

  /** The masked compare holds exactly when the masked update would change
      nothing: first direction ... */
  lemma CompareMaskedSound(bitfield: bv32, mask: bv32, pattern: bv32)
    requires CompareMasked(bitfield, mask, pattern)
    ensures SetMasked(bitfield, mask, pattern) == bitfield
  {
  }

  /** ... and second direction. */
  lemma CompareMaskedComplete(bitfield: bv32, mask: bv32, pattern: bv32)
    requires SetMasked(bitfield, mask, pattern) == bitfield
    ensures CompareMasked(bitfield, mask, pattern)
  {
  }

  /** Distinct positions have disjoint single-bit masks. */
  lemma BitsDisjoint(position: bv32, other: bv32)
    requires position < 32 && other < 32 && other != position
    ensures (Bit(position) & Bit(other)) == 0
  {
  }

  /** SetBit makes the bit read back as `state`. */
  lemma SetBitGet(bitfield: bv32, position: bv32, state: bool)
    requires position < 32
    ensures GetBit(SetBit(bitfield, position, state), position) == state
  {
  }

  /** SetBit leaves every other bit as it was. */
  lemma SetBitFrame(bitfield: bv32, position: bv32, other: bv32, state: bool)
    requires position < 32 && other < 32 && other != position
    ensures GetBit(SetBit(bitfield, position, state), other) == GetBit(bitfield, other)
  {
    SetBitKeepsOther(bitfield, position, other, state);
  }

  /** SetBit leaves all 31 other bits as they were. */
  lemma SetBitFrameAll(bitfield: bv32, position: bv32, state: bool)
    requires position < 32
    ensures forall other :: other < 32 && other != position ==>
              GetBit(SetBit(bitfield, position, state), other) == GetBit(bitfield, other)
  {
    forall other | other < 32 && other != position
      ensures GetBit(SetBit(bitfield, position, state), other) == GetBit(bitfield, other)
    {
      SetBitFrame(bitfield, position, other, state);
    }
  }

  /** The masked form of the frame: the other bit's mask sees no change. */
  lemma SetBitKeepsOther(bitfield: bv32, position: bv32, other: bv32, state: bool)
    requires position < 32 && other < 32 && other != position
    ensures (SetBit(bitfield, position, state) & Bit(other)) == (bitfield & Bit(other))
  {
    BitsDisjoint(position, other);
  }

  /** SetBits changes no bit outside the shifted mask ... */
  lemma SetBitsFrame(bitfield: bv32, position: bv32, mask: bv32, pattern: bv32)
    requires position < 32
    ensures (SetBits(bitfield, position, mask, pattern) & !(mask << position))
         == (bitfield & !(mask << position))
  {
    var m, p := mask << position, pattern << position;
    assert SetBits(bitfield, position, mask, pattern) == SetMasked(bitfield, m, p);
  }

  /** ... and the bits under the shifted mask become the shifted pattern. */
  lemma SetBitsField(bitfield: bv32, position: bv32, mask: bv32, pattern: bv32)
    requires position < 32
    ensures (SetBits(bitfield, position, mask, pattern) & (mask << position))
         == ((pattern << position) & (mask << position))
  {
    var m, p := mask << position, pattern << position;
    assert SetBits(bitfield, position, mask, pattern) == SetMasked(bitfield, m, p);
  }

  /** Reading back a field whose shifted mask loses no bit off the top of
      the register yields what was written. The proof splits at position 16:
      a field above it is at most 16 bits wide. */
  lemma RoundTrip(bitfield: bv32, position: bv32, mask: bv32, pattern: bv32)
    requires position < 32 && (mask << position) >> position == mask
    ensures GetBits(SetBits(bitfield, position, mask, pattern), position, mask) == pattern & mask
    ensures CompareBits(SetBits(bitfield, position, mask, pattern), position, mask, pattern)
  {
    if position < 16 {
      LowFieldRoundTrip(bitfield, position, mask, pattern);
    } else {
      HighFieldIsNarrow(position, mask);
      HighFieldRoundTrip(bitfield, position, mask, pattern);
    }
  }

  /** The round trip for a field that fits, below position 16. */
  lemma LowFieldRoundTrip(bitfield: bv32, position: bv32, mask: bv32, pattern: bv32)
    requires position < 16 && (mask << position) >> position == mask
    ensures GetBits(SetBits(bitfield, position, mask, pattern), position, mask) == pattern & mask
    ensures CompareBits(SetBits(bitfield, position, mask, pattern), position, mask, pattern)
  {
  }

  /** A field that fits at position 16 or above is at most 16 bits wide. */
  lemma HighFieldIsNarrow(position: bv32, mask: bv32)
    requires 16 <= position < 32 && (mask << position) >> position == mask
    ensures mask < 0x1_0000
  {
  }

  /** The round trip for a field of at most 16 bits at position 16 or above. */
  lemma HighFieldRoundTrip(bitfield: bv32, position: bv32, mask: bv32, pattern: bv32)
    requires 16 <= position < 32 && mask < 0x1_0000 && (mask << position) >> position == mask
    ensures GetBits(SetBits(bitfield, position, mask, pattern), position, mask) == pattern & mask
    ensures CompareBits(SetBits(bitfield, position, mask, pattern), position, mask, pattern)
  {
  }

  /** Writing the two-bit field of pin `n` (at bit 2n) leaves the field of
      every other pin `k` intact. */
  lemma PairFieldFrame(bitfield: bv32, n: bv32, k: bv32, pattern: bv32)
    requires n < 16 && k < 16 && n != k
    ensures GetBits(SetBits(bitfield, 2 * n, 3, pattern), 2 * k, 3) == GetBits(bitfield, 2 * k, 3)
  {
  }

  /** Writing the one-bit field at `n` leaves every other one-bit field intact. */
  lemma FlagFieldFrame(bitfield: bv32, n: bv32, k: bv32, pattern: bv32)
    requires n < 32 && k < 32 && n != k
    ensures GetBits(SetBits(bitfield, n, 1, pattern), k, 1) == GetBits(bitfield, k, 1)
  {
  }

  /** CompareBits is equality of the read field with the masked pattern. */
  lemma CompareIsGet(bitfield: bv32, position: bv32, mask: bv32, pattern: bv32)
    requires position < 32
    ensures CompareBits(bitfield, position, mask, pattern) <==> GetBits(bitfield, position, mask) == pattern & mask
  {
  }

  /** Writing the same field twice is the same as writing it once. */
  lemma SetBitsIdempotent(bitfield: bv32, position: bv32, mask: bv32, pattern: bv32)
    requires position < 32
    ensures SetBits(SetBits(bitfield, position, mask, pattern), position, mask, pattern)
         == SetBits(bitfield, position, mask, pattern)
  {
    SetMaskedIdempotent(bitfield, mask << position, pattern << position);
  }

  /** Repeating a masked update changes nothing more. */
  lemma SetMaskedIdempotent(bitfield: bv32, mask: bv32, pattern: bv32)
    ensures SetMasked(SetMasked(bitfield, mask, pattern), mask, pattern) == SetMasked(bitfield, mask, pattern)
  {
  }

  /** The worked examples of the helpers' documentation:
      10100101b at position 3 under mask 111b reads 100b, and writing 011b
      there gives 10011101b. */
  lemma DocumentedExamples()
    ensures GetBits(0xA5, 3, 7) == 4
    ensures SetBits(0xA5, 3, 7, 3) == 0x9D
    ensures CompareBits(0xA5, 3, 7, 4)
  {
  }
}
