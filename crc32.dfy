/** The CRC-32 that zlib's `crc32` computes: ISO 3309 / ITU-T V.42, reflected
    polynomial 0xEDB88320, register preset to all ones and inverted at the end.
    It is what `crc32(lock_id.encode("utf-8"))` returns for a string key. */
module Crc32 {
  import opened Bytes

  const Polynomial: bv32 := 0xEDB8_8320

  /** One bit of the shift register, least significant bit first. */
  function Shift(c: bv32): bv32 {
    if c & 1 == 1 then (c >> 1) ^ Polynomial else c >> 1
  }

  /** Feeds one byte through the register. */
  function UpdateByte(c: bv32, b: Byte): bv32 {
    var x := c ^ (b as bv32);
    Shift(Shift(Shift(Shift(Shift(Shift(Shift(Shift(x))))))))
  }

  /** Feeds a byte string through the register, first byte first. */
  function Update(c: bv32, data: seq<Byte>): bv32
    decreases |data|
  {
    if data == [] then c else Update(UpdateByte(c, data[0]), data[1..])
  }

  /** `zlib.crc32(data)`; a `bv32` is exactly Python 3's unsigned result in [0, 2^32). */
  function Checksum(data: seq<Byte>): bv32 {
    Update(0xFFFF_FFFF, data) ^ 0xFFFF_FFFF
  }

  /** Feeding a concatenation is feeding the parts in turn. */
  lemma {:induction false} UpdateAppend(c: bv32, a: seq<Byte>, b: seq<Byte>)
    ensures Update(c, a + b) == Update(Update(c, a), b)
    decreases |a|
  {
    if a == [] {
      assert a + b == b;
    } else {
      assert (a + b)[0] == a[0];
      assert (a + b)[1..] == a[1..] + b;
      UpdateAppend(UpdateByte(c, a[0]), a[1..], b);
    }
  }

  /** The empty string has checksum 0. */
  lemma EmptyChecksum()
    ensures Checksum([]) == 0
  {
  }

  /** The standard check value: the checksum of the ASCII digits "123456789". */
  lemma CheckValue()
    ensures Checksum([0x31, 0x32, 0x33, 0x34, 0x35, 0x36, 0x37, 0x38, 0x39]) == 0xCBF4_3926
  {
  }
}
