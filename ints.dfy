// Fixed-width integers of the firmware and the C conversions between them.
// Values are mathematical integers; every wrap-around is written out.
module Ints {

  type Byte = x: int | 0 <= x < 0x100                   // uint8_t
  type U16 = x: int | 0 <= x < 0x1_0000                  // uint16_t
  type U32 = x: int | 0 <= x < 0x1_0000_0000             // uint32_t
  type I8 = x: int | -0x80 <= x < 0x80                   // int8_t, signed char
  type I32 = x: int | -0x8000_0000 <= x < 0x8000_0000    // int32_t, long

  /** Storing a value of -0x80..0xFF into an int8_t: the values from 0x80
      up wrap around to the negative ones. */
  function ToI8(v: int): I8
    requires -0x80 <= v < 0x100
  {
    if v < 0x80 then v else v - 0x100
  }

  /** Storing an integer into an int32_t: two's-complement truncation to 32 bits. */
  function ToI32(v: int): (r: I32)
    ensures -0x8000_0000 <= v < 0x8000_0000 ==> r == v
  {
    (v + 0x8000_0000) % 0x1_0000_0000 - 0x8000_0000
  }

  /** ToI32 keeps the value modulo 2^32. */
  lemma ToI32Wraps(v: int)
    ensures (ToI32(v) - v) % 0x1_0000_0000 == 0
  {
  }

  /** Converting an integer to uint32_t (so -1 becomes 0xFFFFFFFF). */
  function ToU32(v: int): (r: U32)
    ensures (r - v) % 0x1_0000_0000 == 0
    ensures 0 <= v < 0x1_0000_0000 ==> r == v
  {
    v % 0x1_0000_0000
  }

  /** Converting an integer to uint16_t (so -1 becomes 0xFFFF). */
  function ToU16(v: int): (r: U16)
    ensures (r - v) % 0x1_0000 == 0
    ensures 0 <= v < 0x1_0000 ==> r == v
  {
    v % 0x1_0000
  }

  /** `a - b` on uint32_t: the distance from b forward to a, modulo 2^32. */
  function SubU32(a: U32, b: U32): (d: U32)
    ensures (d - (a - b)) % 0x1_0000_0000 == 0
  {
    if b <= a then a - b else a - b + 0x1_0000_0000
  }
}
