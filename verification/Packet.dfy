/** Packet headers, frames, the CRC seal and its verification (udp/packet.go, sendUDP in udp/global.go). */
module Packet {
  import opened Bytes
  import opened Wrappers
  import Crc32

  const MAGIC_CONST: u32 := 0x0105_1117
  const MAGIC_BYTES: bytes := [1, 5, 17, 23]

  // Packet types
  const DATA: u16 := 0
  const ACK: u16 := 1
  const NAK: u16 := 2
  const SYN: u16 := 3
  const SYN_ACK: u16 := 4

  const HEADER_SIZE := 24

  datatype PcktHeader = PcktHeader(
    magic: u32, checksum: u32, convId: u32, packetNum: u32, sequenceNum: u32, isFinal: u16, kind: u16)

  datatype Pckt = Pckt(header: PcktHeader, body: bytes)

  // ----- headers -----

  function HeaderBytes(h: PcktHeader): (r: bytes)
    ensures |r| == HEADER_SIZE
  {
    PutU32(h.magic) + PutU32(h.checksum) + PutU32(h.convId) + PutU32(h.packetNum) + PutU32(h.sequenceNum)
    + PutU16(h.isFinal) + PutU16(h.kind)
  }

  function ParseHeader(d: bytes): PcktHeader
    requires |d| >= HEADER_SIZE
  {
    PcktHeader(GetU32(d), GetU32(d[4..]), GetU32(d[8..]), GetU32(d[12..]), GetU32(d[16..]),
               GetU16(d[20..]), GetU16(d[22..]))
  }

  method SerializeHeader(h: PcktHeader) returns (buf: bytes)
    ensures buf == HeaderBytes(h)
  {
    buf := [];
    buf := buf + PutU32(h.magic);
    buf := buf + PutU32(h.checksum);
    buf := buf + PutU32(h.convId);
    buf := buf + PutU32(h.packetNum);
    buf := buf + PutU32(h.sequenceNum);
    buf := buf + PutU16(h.isFinal);
    buf := buf + PutU16(h.kind);
  }

  /** Reads field by field; fails exactly when some field is cut short. */
  method DeserializeHeader(data: bytes) returns (r: Result<PcktHeader>)
    ensures r == if |data| < HEADER_SIZE then Failure else Success(ParseHeader(data))
  {
    var magic :- ReadU32(data);
    var checksum :- ReadU32(magic.1);
    var convId :- ReadU32(checksum.1);
    var packetNum :- ReadU32(convId.1);
    var sequenceNum :- ReadU32(packetNum.1);
    var isFinal :- ReadU16(sequenceNum.1);
    var kind :- ReadU16(isFinal.1);
    return Success(PcktHeader(
      magic.0, checksum.0, convId.0, packetNum.0, sequenceNum.0, isFinal.0, kind.0));
  }

  lemma Drop(a: bytes, rest: bytes, d: bytes, i: nat)
    requires i <= |d| && d[i..] == a + rest
    ensures i + |a| <= |d| && d[i + |a|..] == rest
  {}

  lemma Layout(a: bytes, b: bytes, c: bytes, n: bytes, s: bytes, f: bytes, k: bytes, body: bytes, d: bytes)
    requires |a| == |b| == |c| == |n| == |s| == 4 && |f| == |k| == 2
    requires d == a + b + c + n + s + f + k + body
    ensures d == a + d[4..] && d[4..] == b + d[8..] && d[8..] == c + d[12..] && d[12..] == n + d[16..]
    ensures d[16..] == s + d[20..] && d[20..] == f + d[22..] && d[22..] == k + body && d[24..] == body
  {
    var r := n + (s + (f + (k + body)));
    assert d == a + (b + (c + r));
    assert d[0..] == d;
    Drop(a, b + (c + r), d, 0);
    Drop(b, c + r, d, 4);
    Drop(c, r, d, 8);
    Drop(n, s + (f + (k + body)), d, 12);
    Drop(s, f + (k + body), d, 16);
    Drop(f, k + body, d, 20);
    Drop(k, body, d, 22);
  }

  lemma ParsePrintHeader(h: PcktHeader, body: bytes)
    ensures ParseHeader(HeaderBytes(h) + body) == h
  {
    var d := HeaderBytes(h) + body;
    Layout(PutU32(h.magic), PutU32(h.checksum), PutU32(h.convId), PutU32(h.packetNum), PutU32(h.sequenceNum),
           PutU16(h.isFinal), PutU16(h.kind), body, d);
    GetPutU32(h.magic, d[4..]);
    GetPutU32(h.checksum, d[8..]);
    GetPutU32(h.convId, d[12..]);
    GetPutU32(h.packetNum, d[16..]);
    GetPutU32(h.sequenceNum, d[20..]);
    GetPutU16(h.isFinal, d[22..]);
    GetPutU16(h.kind, body);
  }

  lemma PrintParseHeader(d: bytes)
    requires |d| >= HEADER_SIZE
    ensures HeaderBytes(ParseHeader(d)) == d[..HEADER_SIZE]
  {
    PutGetU32(d);
    PutGetU32(d[4..]);
    PutGetU32(d[8..]);
    PutGetU32(d[12..]);
    PutGetU32(d[16..]);
    PutGetU16(d[20..]);
    PutGetU16(d[22..]);
    Pieces(d, d[..4], d[4..][..4], d[8..][..4], d[12..][..4], d[16..][..4], d[20..][..2], d[22..][..2]);
  }

  lemma Pieces(d: bytes, a: bytes, b: bytes, c: bytes, n: bytes, s: bytes, f: bytes, k: bytes)
    requires |d| >= HEADER_SIZE
    requires a == d[..4] && b == d[4..][..4] && c == d[8..][..4] && n == d[12..][..4] && s == d[16..][..4]
    requires f == d[20..][..2] && k == d[22..][..2]
    ensures a + b + c + n + s + f + k == d[..24]
  {}

  // ----- packets -----

  function SerializePacket(p: Pckt): (r: bytes)
    ensures |r| == HEADER_SIZE + |p.body|
  {
    HeaderBytes(p.header) + p.body
  }

  function DeserializePacket(d: bytes): Result<Pckt> {
    if |d| < HEADER_SIZE then Failure else Success(Pckt(ParseHeader(d), d[HEADER_SIZE..]))
  }

  lemma DeserializeSerialize(p: Pckt)
    ensures DeserializePacket(SerializePacket(p)) == Success(p)
  {
    ParsePrintHeader(p.header, p.body);
    Split(HeaderBytes(p.header), p.body);
  }

  lemma SerializeDeserialize(d: bytes)
    requires |d| >= HEADER_SIZE
    ensures SerializePacket(DeserializePacket(d).value) == d
  {
    PrintParseHeader(d);
  }

  /** Packets and byte strings of at least 24 bytes are in one-to-one correspondence. */
  lemma PacketBijection(p: Pckt, d: bytes)
    ensures DeserializePacket(d) == Success(p) <==> d == SerializePacket(p)
  {
    DeserializeSerialize(p);
    if |d| >= HEADER_SIZE {
      SerializeDeserialize(d);
    }
  }

  // ----- checksums -----

  method ByteSliceEqual(a: bytes, b: bytes) returns (equal: bool)
    ensures equal <==> a == b
  {
    if |a| != |b| {
      return false;
    }
    var i := 0;
    while i < |a|
      invariant i <= |a| && a[..i] == b[..i]
    {
      if a[i] != b[i] {
        return false;
      }
      i := i + 1;
    }
    return true;
  }

  function ComputeChecksum(raw: bytes): (r: Result<bytes>)
    ensures r.Success? ==> |r.value| == 4
  {
    if |raw| < HEADER_SIZE then Failure else Success(Crc32.PutWord(Crc32.Checksum(raw[8..])))
  }

  function VerifyChecksum(raw: bytes): Result<bool> {
    if |raw| < HEADER_SIZE then Failure else Success(ComputeChecksum(raw).value == raw[4..8])
  }

  function VerifyMagic(raw: bytes): Result<bool> {
    if |raw| < HEADER_SIZE then Failure else Success(MAGIC_BYTES == raw[0..4])
  }

  function VerifyPacket(raw: bytes): Result<bool> {
    if |raw| < HEADER_SIZE then Failure
    else Success(VerifyMagic(raw).value && VerifyChecksum(raw).value)
  }
}
