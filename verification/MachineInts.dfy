/** The fixed-width integers of the engine and the conversions between them. */
module MachineInts {
  type uint8 = x: int | 0 <= x < 0x100
  type int8 = x: int | -0x80 <= x < 0x80
  type uint32 = x: int | 0 <= x < 0x1_0000_0000
  type int32 = x: int | -0x8000_0000 <= x < 0x8000_0000

  /** Conversion to uint8_t: reduction modulo 2^8. */
  function ToUint8(x: int): (r: uint8)
    ensures 0 <= x < 0x100 ==> r == x
    ensures (r - x) % 0x100 == 0
  {
    x % 0x100
  }

  /** Conversion to int8_t: the representative of x modulo 2^8 in the signed range. */
  function ToInt8(x: int): (r: int8)
    ensures -0x80 <= x < 0x80 ==> r == x
    ensures (r - x) % 0x100 == 0
  {
    var m := x % 0x100;
    if m < 0x80 then m else m - 0x100
  }

  /** Conversion to uint32_t: reduction modulo 2^32. */
  function ToUint32(x: int): (r: uint32)
    ensures 0 <= x < 0x1_0000_0000 ==> r == x
    ensures -0x1_0000_0000 <= x < 0 ==> r == x + 0x1_0000_0000
  {
    x % 0x1_0000_0000
  }

  function Max(x: int, y: int): (z: int)
    ensures z >= x && z >= y && (z == x || z == y)
  {
    if x < y then y else x
  }

  function Min(x: int, y: int): (z: int)
    ensures z <= x && z <= y && (z == x || z == y)
  {
    if x < y then x else y
  }

  /** Multiplication by a natural number keeps the order. */
  lemma MulMonotone(k: nat, x: int, y: int)
    requires x <= y
    ensures k * x <= k * y
  {
  }
}
