/** 64-bit unsigned machine words. */
module Words {

  /** Unsigned sums wrap around at WORD. */
  const WORD: nat := 0x1_0000_0000_0000_0000

  type uint64 = x: int | 0 <= x < WORD
}
