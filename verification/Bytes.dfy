/** Network byte order (tcp/network/bytes.go). */
module Bytes {
  import opened SeqNum

  const BYTE: int := 0x100

  function Be16(b: seq<u8>, off: nat): u16
    requires off + 2 <= |b|
  {
    b[off] * BYTE + b[off + 1]
  }

  function Be32(b: seq<u8>, off: nat): u32
    requires off + 4 <= |b|
  {
    Be16(b, off) * 0x1_0000 + Be16(b, off + 2)
  }

  function Bytes16(v: u16): (b: seq<u8>)
    ensures |b| == 2 && Be16(b, 0) == v
  {
    [v / BYTE, v % BYTE]
  }

  function Bytes32(v: u32): (b: seq<u8>)
    ensures |b| == 4 && Be32(b, 0) == v
  {
    Bytes16(v / 0x1_0000) + Bytes16(v % 0x1_0000)
  }
}
