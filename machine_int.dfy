/** Fixed-width unsigned integers of the firmware, as naturals below a bound. */
module MachineInt {
  const U8 := 0x100
  const U16 := 0x1_0000
  const U32 := 0x1_0000_0000

  type Byte = n: nat | n < U8
  type Uint16 = n: nat | n < U16
  type Uint32 = n: nat | n < U32
  type Int8 = n: int | -0x80 <= n < 0x80
  type Int16 = n: int | -0x8000 <= n < 0x8000
  type Int32 = n: int | -0x8000_0000 <= n < 0x8000_0000

  /** The two's-complement bit pattern of a signed value in `bits` bits, as a natural. */
  function Unsigned(n: int, bound: nat): (r: nat)
    requires bound > 0 && -(bound / 2) <= n < bound / 2
    ensures r < bound
    ensures n >= 0 ==> r == n
    ensures n < 0 ==> r == bound + n
  {
    if n >= 0 then n else bound + n
  }

  /** `n++` on a `uint32_t`. */
  function Inc32(n: nat): (r: nat)
    requires n < U32
    ensures r < U32
    ensures n + 1 < U32 ==> r == n + 1
    ensures n + 1 == U32 ==> r == 0
  {
    (n + 1) % U32
  }

  /** `n++` on a `uint8_t`. */
  function Inc8(n: nat): (r: nat)
    requires n < U8
    ensures r < U8
    ensures n + 1 < U8 ==> r == n + 1
    ensures n + 1 == U8 ==> r == 0
  {
    (n + 1) % U8
  }

  /** `a - b` on `uint32_t` operands: the difference modulo 2^32. */
  function Sub32(a: nat, b: nat): (r: nat)
    requires a < U32 && b < U32
    ensures r < U32
    ensures b <= a ==> r == a - b
    ensures a < b ==> r == U32 + a - b
  {
    (a - b) % U32
  }
}
