/** Bytes and the little-endian integers of a C struct. */
module Bytes {

  type byte = x: int | 0 <= x < 256

  const U32_LIMIT := 0x1_0000_0000
  const I32_LIMIT := 0x8000_0000

  predicate IsU32(x: int) { 0 <= x < U32_LIMIT }

  predicate IsI32(x: int) { -I32_LIMIT <= x < I32_LIMIT }

  /** A low byte in front of higher digits. */
  function Join(low: int, high: int): int {
    low + 0x100 * high
  }

  lemma Joined(low: byte, high: int)
    ensures Join(low, high) % 0x100 == low && Join(low, high) / 0x100 == high
  {}

  function GetU32(s: seq<byte>, at: nat): (r: int)
    requires at + 4 <= |s|
    ensures IsU32(r)
  {
    Join(s[at], Join(s[at + 1], Join(s[at + 2], s[at + 3])))
  }

  function PutU32(s: seq<byte>, at: nat, x: int): (r: seq<byte>)
    requires at + 4 <= |s| && IsU32(x)
    ensures |r| == |s|
  {
    var x1 := x / 0x100;
    var x2 := x1 / 0x100;
    s[at := x % 0x100][at + 1 := x1 % 0x100][at + 2 := x2 % 0x100][at + 3 := x2 / 0x100]
  }

  /** Two's complement. */
  function ToSigned(x: int): int {
    if x >= I32_LIMIT then x - U32_LIMIT else x
  }

  function ToUnsigned(x: int): int {
    if x < 0 then x + U32_LIMIT else x
  }

  lemma GetPutU32(s: seq<byte>, at: nat, x: int)
    requires at + 4 <= |s| && IsU32(x)
    ensures GetU32(PutU32(s, at, x), at) == x
    ensures forall k :: 0 <= k < |s| && !(at <= k < at + 4) ==> PutU32(s, at, x)[k] == s[k]
  {}

  /** Writing back the number read from the same place changes nothing. */
  lemma PutGetU32(s: seq<byte>, t: seq<byte>, at: nat)
    requires at + 4 <= |s| == |t|
    requires forall k :: at <= k < at + 4 ==> s[k] == t[k]
    ensures PutU32(t, at, GetU32(s, at)) == t
  {
    Joined(s[at + 2], s[at + 3]);
    Joined(s[at + 1], Join(s[at + 2], s[at + 3]));
    Joined(s[at], Join(s[at + 1], Join(s[at + 2], s[at + 3])));
  }

  lemma SignedUnsigned(x: int)
    ensures IsI32(x) ==> IsU32(ToUnsigned(x)) && ToSigned(ToUnsigned(x)) == x
    ensures IsU32(x) ==> IsI32(ToSigned(x)) && ToUnsigned(ToSigned(x)) == x
  {}
}
