/**
 * Byte arithmetic of the read-modify-write register operations: the bit test
 * of read_bit, the single-bit update of write_bit and the masked field update
 * of write_bits.
 */
module Bits {

  /** `1 << pos` as a byte. */
  function Mask(pos: bv8): (m: bv8)
    requires pos < 8
  {
    (1 as bv8) << pos
  }

  /** The test `(value & (1 << pos)) != 0`. */
  predicate BitIsSet(value: bv8, pos: bv8)
    requires pos < 8
  {
    value & Mask(pos) != 0
  }

  /** `value | bit_mask` when setting, `value & ~bit_mask` when clearing. */
  function WithBit(value: bv8, pos: bv8, bitValue: bool): (r: bv8)
    requires pos < 8
    ensures BitIsSet(r, pos) == bitValue
    ensures r & !Mask(pos) == value & !Mask(pos)
    ensures BitIsSet(value, pos) == bitValue ==> r == value
  {
    if bitValue then value | Mask(pos) else value & !Mask(pos)
  }

  /** Two bytes that agree outside bit `pos` agree on every other bit test. */
  lemma SameOutsideBit(a: bv8, b: bv8, pos: bv8, j: bv8)
    requires pos < 8 && j < 8 && j != pos
    requires a & !Mask(pos) == b & !Mask(pos)
    ensures BitIsSet(a, j) == BitIsSet(b, j)
  {
  }

  /** `(current & ~mask) | value`, where `value` is already shifted into place. */
  function MaskedUpdate(current: bv8, mask: bv8, value: bv8): (r: bv8)
    ensures r & value == value
    ensures r & mask & !value == 0
    ensures r & !(mask | value) == current & !(mask | value)
  {
    (current & !mask) | value
  }
}
