/** `swab32`: reversal of the four bytes of a 32-bit word. */
module ByteOrder {

  /** Byte `i` of `x`, counting from the least significant byte, as a word in `[0, 0xff]`. */
  function Byte(x: bv32, i: nat): (b: bv32)
    requires i < 4
    ensures b <= 0xff
  {
    if i == 0 then x & 0xff
    else if i == 1 then (x >> 8) & 0xff
    else if i == 2 then (x >> 16) & 0xff
    else x >> 24
  }

  /** The word whose bytes, least significant first, are `b0`, `b1`, `b2`, `b3`. */
  function FromBytes(b0: bv32, b1: bv32, b2: bv32, b3: bv32): (x: bv32)
    requires b0 <= 0xff && b1 <= 0xff && b2 <= 0xff && b3 <= 0xff
    ensures Byte(x, 0) == b0 && Byte(x, 1) == b1 && Byte(x, 2) == b2 && Byte(x, 3) == b3
  {
    b0 | (b1 << 8) | (b2 << 16) | (b3 << 24)
  }

  /** Each of the four masked bytes moves to the mirrored position. */
  function Swab32(x: bv32): (r: bv32)
    ensures forall i :: 0 <= i < 4 ==> Byte(r, i) == Byte(x, 3 - i)
  {
    ((x & 0x0000_00ff) << 24) |
    ((x & 0x0000_ff00) << 8) |
    ((x & 0x00ff_0000) >> 8) |
    ((x & 0xff00_0000) >> 24)
  }

  /** A word is determined by its four bytes. */
  lemma BytesDetermineWord(x: bv32)
    ensures x == FromBytes(Byte(x, 0), Byte(x, 1), Byte(x, 2), Byte(x, 3))
  {
  }

  /** Swab32 turns the word with bytes `b0 b1 b2 b3` into the word with bytes `b3 b2 b1 b0`. */
  lemma Swab32Reverses(b0: bv32, b1: bv32, b2: bv32, b3: bv32)
    requires b0 <= 0xff && b1 <= 0xff && b2 <= 0xff && b3 <= 0xff
    ensures Swab32(FromBytes(b0, b1, b2, b3)) == FromBytes(b3, b2, b1, b0)
  {
  }

  /** Swapping twice gives the original word back. */
  lemma Swab32Involution(x: bv32)
    ensures Swab32(Swab32(x)) == x
  {
  }
}
