/** Number conversions shared by the Python and C++ models. */
module Numeric {

  /** The C++ `uint` (32 bits). */
  const Uint32Modulus: int := 0x1_0000_0000

  type uint32 = x: int | 0 <= x < 0x1_0000_0000

  /** Python `int(r)` and C/C++ `(int) r`: truncation toward zero. */
  function Trunc(r: real): (t: int)
    ensures 0.0 <= r ==> t as real <= r < t as real + 1.0
    ensures r < 0.0 ==> t as real - 1.0 < r <= t as real
    ensures 0 <= t <==> -1.0 < r
  {
    if r >= 0.0 then r.Floor else -((-r).Floor)
  }

  /** Conversion of an integer value to a C++ `uint`: reduction modulo 2^32. */
  function ToUint32(i: int): (u: uint32)
    ensures 0 <= i < Uint32Modulus ==> u == i
    ensures -Uint32Modulus <= i < 0 ==> u == i + Uint32Modulus
    ensures (i - u) % Uint32Modulus == 0
  {
    i % Uint32Modulus
  }

  /** The bit of a 4-bit wall mask that stands for neighbour n. */
  function Bit(n: nat): (b: bv8)
    requires n < 8
  {
    1 << n
  }

  /** Two masks below 16 that agree on bits 0 to 3 are equal. */
  lemma MaskDeterminedByBits(a: bv8, b: bv8)
    requires a < 16 && b < 16
    requires forall k :: 0 <= k < 4 ==> (a & Bit(k) != 0 <==> b & Bit(k) != 0)
    ensures a == b
  {
    assert a & Bit(0) != 0 <==> b & Bit(0) != 0;
    assert a & Bit(1) != 0 <==> b & Bit(1) != 0;
    assert a & Bit(2) != 0 <==> b & Bit(2) != 0;
    assert a & Bit(3) != 0 <==> b & Bit(3) != 0;
  }
}
