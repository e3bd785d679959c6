/** Bytes, the unsigned widths of the wire format, and their big-endian form. */
module Bytes {
  import opened Wrappers

  type byte = x: int | 0 <= x < 0x100
  type bytes = seq<byte>
  type u16 = x: int | 0 <= x < 0x1_0000
  type u32 = x: int | 0 <= x < 0x1_0000_0000

  const TWO_TO_THE_32 := 0x1_0000_0000

  /** `a + b` as Go computes it on uint32. */
  function Add32(a: u32, b: u32): (r: u32)
    ensures r == (a + b) % TWO_TO_THE_32
  {
    if a + b < TWO_TO_THE_32 then a + b else a + b - TWO_TO_THE_32
  }

  /** Go's conversions of a length to uint16 and uint32. */
  function Truncate16(n: nat): (r: u16)
    ensures r == n % 0x1_0000
  {
    if n < 0x1_0000 then n else n % 0x1_0000
  }

  function Truncate32(n: nat): (r: u32)
    ensures r == n % TWO_TO_THE_32
  {
    if n < TWO_TO_THE_32 then n else n % TWO_TO_THE_32
  }

  function PutU16(x: u16): (r: bytes)
    ensures |r| == 2
  {
    [x / 256, x % 256]
  }

  function PutU32(x: u32): (r: bytes)
    ensures |r| == 4
  {
    PutU16(x / 0x1_0000) + PutU16(x % 0x1_0000)
  }

  function GetU16(b: bytes): u16
    requires |b| >= 2
  {
    b[0] as int * 256 + b[1] as int
  }

  function GetU32(b: bytes): u32
    requires |b| >= 4
  {
    GetU16(b) * 0x1_0000 + GetU16(b[2..])
  }

  lemma GetPutU16(x: u16, rest: bytes)
    ensures GetU16(PutU16(x) + rest) == x
  {}

  lemma GetPutU32(x: u32, rest: bytes)
    ensures GetU32(PutU32(x) + rest) == x
  {}

  lemma PutU32Injective(x: u32, y: u32)
    requires PutU32(x) == PutU32(y)
    ensures x == y
  {
    GetPutU32(x, []);
    GetPutU32(y, []);
    assert PutU32(x) + [] == PutU32(y) + [];
  }

  /** Reading is the inverse of printing in the other order too. */
  lemma PutGetU16(b: bytes)
    requires |b| >= 2
    ensures PutU16(GetU16(b)) == b[..2]
  {}

  lemma PutGetU32(b: bytes)
    requires |b| >= 4
    ensures PutU32(GetU32(b)) == b[..4]
  {
    PutGetU16(b);
    PutGetU16(b[2..]);
    assert GetU32(b) / 0x1_0000 == GetU16(b) && GetU32(b) % 0x1_0000 == GetU16(b[2..]);
    assert b[2..][..2] == b[2..4];
    assert b[..2] + b[2..4] == b[..4];
  }

  /** One `binary.Read` of a fixed-width field: the value and what is left of the reader. */
  function ReadU16(buf: bytes): Result<(u16, bytes)> {
    if |buf| < 2 then Failure else Success((GetU16(buf), buf[2..]))
  }

  function ReadU32(buf: bytes): Result<(u32, bytes)> {
    if |buf| < 4 then Failure else Success((GetU32(buf), buf[4..]))
  }

  function ReadBytes(buf: bytes, n: nat): Result<(bytes, bytes)> {
    if |buf| < n then Failure else Success((buf[..n], buf[n..]))
  }

  lemma Split(h: bytes, body: bytes)
    ensures (h + body)[..|h|] == h && (h + body)[|h|..] == body
  {}
}
