/** The source's 32-bit unsigned integer (u32) and its wrap-around addition. */
module U32Arith {
  const U32_MODULUS: nat := 0x1_0000_0000

  type U32 = x: int | 0 <= x < U32_MODULUS

  /** `a += b` on u32: wraps around at 2^32. */
  function AddU32(a: U32, b: U32): U32
  {
    if a + b < U32_MODULUS then a + b else a + b - U32_MODULUS
  }

  /** The conversion of an unsigned value of any width to u32. */
  function ToU32(x: nat): (r: U32)
    ensures x < U32_MODULUS ==> r == x
  {
    x % U32_MODULUS
  }

  lemma ModAddLeft(a: nat, b: nat)
    ensures ((a % U32_MODULUS) + b) % U32_MODULUS == (a + b) % U32_MODULUS
  {
    var q := a / U32_MODULUS;
    assert a == q * U32_MODULUS + a % U32_MODULUS;
  }

  /** AddU32 is addition modulo 2^32. */
  lemma AddU32IsMod(a: U32, b: U32)
    ensures AddU32(a, b) == (a + b) % U32_MODULUS
  {
  }
}
