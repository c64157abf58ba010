/** Fixed-width integers and the optional/error wrappers shared by the benchmarks. */
module Common {

  const U16Modulus: int := 0x1_0000
  const U32Modulus: int := 0x1_0000_0000

  /** C++ `uint16_t`. */
  newtype u16 = x: int | 0 <= x < 0x1_0000

  /** C++ `uint32_t`. */
  newtype u32 = x: int | 0 <= x < 0x1_0000_0000

  /** The largest `uint32_t`, which is also `(uint32_t)-1`. */
  const U32Max: u32 := 0xFFFF_FFFF

  /** `++x` on a `uint32_t`: wraps from the largest value to zero. */
  function Increment(x: u32): (r: u32)
    ensures r as int == (x as int + 1) % U32Modulus
  {
    if x == U32Max then 0 else x + 1
  }

  /** The implicit conversion of an unsigned value to `uint16_t`: keeps the low 16 bits. */
  function NarrowToU16(x: nat): (r: u16)
    ensures x < U16Modulus ==> r as int == x
    ensures (r as int - x) % U16Modulus == 0
  {
    (x % U16Modulus) as u16
  }

  datatype Option<T> = None | Some(value: T)

  datatype Result<T> = Ok(value: T) | Err(message: string)
}
