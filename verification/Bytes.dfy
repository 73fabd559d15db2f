/** Bytes, fixed-width byte strings and big-endian numbers. */
module Bytes {
  newtype byte = x: int | 0 <= x < 0x100

  type Bytes20 = b: seq<byte> | |b| == 20 witness seq(20, _ => 0)
  type Bytes32 = b: seq<byte> | |b| == 32 witness seq(32, _ => 0)

  /** A 20-byte EVM account address. */
  datatype Address = Address(raw: Bytes20)

  /** The bytes32 key under which the escrow files a league. */
  datatype LeagueKey = LeagueKey(raw: Bytes32)

  function Zeros(n: nat): (z: seq<byte>)
    ensures |z| == n
  {
    seq(n, _ => 0)
  }
}
