/** The elements of a Python `bytes` object. */
module Bytes {

  type Byte = bv8

  /** The byte whose value is `n`, counted up from zero. */
  function FromInt(n: nat): (b: Byte)
    requires n < 0x100
    ensures b as int == n
  {
    if n == 0 then 0 else FromInt(n - 1) + 1
  }
}
