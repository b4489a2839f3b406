/** The widths and fixed texts of the machine (Constants.java). */
module Constants {
  import opened Bits

  const START_LABEL: string := "START"
  const UNKNOWN_OPCODE: string := "???"

  const VALUE_WIDTH: nat := 24
  const VALUE_RANGE: int := 0x100_0000
  const VALUE_MASK: int := 0xFF_FFFF
  const SIGNBIT: int := 0x80_0000

  const ADDRESS_WIDTH: nat := 20
  const ADDRESS_RANGE: int := 0x10_0000
  const ADDRESS_MASK: int := 0xF_FFFF

  /** The ranges and masks are the powers of two the widths define. */
  lemma WidthsDetermineMasks()
    ensures VALUE_RANGE == Pow2(VALUE_WIDTH) && VALUE_MASK == VALUE_RANGE - 1
    ensures SIGNBIT == Pow2(VALUE_WIDTH - 1)
    ensures ADDRESS_RANGE == Pow2(ADDRESS_WIDTH) && ADDRESS_MASK == ADDRESS_RANGE - 1
  {
    Pow2Values();
  }

  /**
   * `w & VALUE_MASK` on a Java int, written as the remainder it is (MaskValue
   * proves the two equal): the 24 low bits of w.
   */
  function ValueBits(w: int): (r: int)
    ensures 0 <= r <= VALUE_MASK
  {
    w % VALUE_RANGE
  }

  /** `w & ADDRESS_MASK` on a Java int (MaskAddress proves it): the 20 low bits of w. */
  function AddressBits(w: int): (r: int)
    ensures 0 <= r < ADDRESS_RANGE
  {
    w % ADDRESS_RANGE
  }

  /** `w >> 20` on a Java int (Machine.ShiftRight20 proves it): the opcode bits of w, sign kept. */
  function OpcodeBits(w: int): int
  {
    w / ADDRESS_RANGE
  }

  /** Masking with VALUE_MASK keeps the 24 low bits. */
  lemma MaskValue(w: int)
    ensures And(w, VALUE_MASK) == w % VALUE_RANGE == ValueBits(w)
    ensures 0 <= And(w, VALUE_MASK) <= VALUE_MASK
  {
    WidthsDetermineMasks();
    AndLowMask(w, VALUE_WIDTH);
  }

  /** Masking with ADDRESS_MASK keeps the 20 low bits: a memory index. */
  lemma MaskAddress(w: int)
    ensures And(w, ADDRESS_MASK) == w % ADDRESS_RANGE == AddressBits(w)
    ensures 0 <= And(w, ADDRESS_MASK) < ADDRESS_RANGE
  {
    WidthsDetermineMasks();
    AndLowMask(w, ADDRESS_WIDTH);
  }

  /** SIGNBIT is the top bit inside VALUE_MASK. */
  lemma SignBitIsTopValueBit()
    ensures And(SIGNBIT, VALUE_MASK) == SIGNBIT
    ensures 2 * SIGNBIT == VALUE_RANGE
  {
    MaskValue(SIGNBIT);
  }

  /** Every masked address is also a 24-bit value. */
  lemma AddressFitsValue(w: int)
    ensures ADDRESS_MASK < VALUE_MASK
    ensures And(And(w, ADDRESS_MASK), VALUE_MASK) == And(w, ADDRESS_MASK)
  {
    MaskAddress(w);
    MaskValue(And(w, ADDRESS_MASK));
  }
}
