/**
 * The 64-bit packet masks of the pipeline action handlers: bit i stands for
 * packet i of a burst of at most 64.
 */
module Masks {
  /**
   * (~0LLU) >> (64 - n): the low n bits set, for a burst of n packets,
   * 1 <= n <= 64. The shift is undefined in C for n = 0; no handler is
   * called with an empty burst, and the model answers 0 there.
   */
  function LowMask(n: bv64): bv64
  {
    if 1 <= n <= 64 then 0xffff_ffff_ffff_ffff >> (64 - n) else 0
  }

  /** Bit j of the mask is set exactly for the first n packets. */
  lemma LowMaskBits(n: bv64, j: bv64)
    requires 1 <= n <= 64 && j < 64
    ensures (LowMask(n) & (1 << j) != 0) <==> j < n
  {
  }
}
