/** Sealing a packet into a frame and sending it (sendUDP in udp/global.go), and what verification guarantees. */
module Frame {
  import opened Bytes
  import opened Wrappers
  import opened Packet
  import Crc32

  /** The frame with its checksum field filled in. */
  function Seal(raw: bytes): (r: bytes)
    requires |raw| >= HEADER_SIZE
    ensures |r| == |raw|
  {
    raw[..4] + Crc32.PutWord(Crc32.Checksum(raw[8..])) + raw[8..]
  }

  function FrameOf(p: Pckt): (r: bytes)
    ensures |r| == HEADER_SIZE + |p.body|
  {
    Seal(SerializePacket(p))
  }

  /** Serialize, compute the checksum, and copy it into bytes 4 to 7 in place. */
  method SealInPlace(p: Pckt) returns (frame: array<byte>)
    ensures fresh(frame) && frame[..] == FrameOf(p)
  {
    var headerBytes := SerializeHeader(p.header);
    var raw := headerBytes + p.body;
    frame := new byte[|raw|](i requires 0 <= i < |raw| => raw[i]);
    var checksum := ComputeChecksum(frame[..]).value;
    assert frame[..] == raw && raw == SerializePacket(p);
    var i := 0;
    while i < 4
      invariant i <= 4
      invariant frame[..] == Copied(raw, checksum, i)
    {
      CopyOne(raw, checksum, i);
      frame[4 + i] := checksum[i];
      i := i + 1;
    }
  }

  /** `raw` after the first `i` checksum bytes have been copied to index 4 and on. */
  ghost function Copied(raw: bytes, checksum: bytes, i: nat): (r: bytes)
    requires |raw| >= HEADER_SIZE && |checksum| == 4 && i <= 4
    ensures |r| == |raw|
    ensures i == 0 ==> r == raw
    ensures i == 4 ==> r == raw[..4] + checksum + raw[8..]
  {
    raw[..4] + checksum[..i] + raw[4 + i..]
  }

  lemma CopyOne(raw: bytes, checksum: bytes, i: nat)
    requires |raw| >= HEADER_SIZE && |checksum| == 4 && i < 4
    ensures Copied(raw, checksum, i)[4 + i := checksum[i]] == Copied(raw, checksum, i + 1)
  {}

  /** What `sendUDP` hands to the socket: nothing when the packet is "lost", otherwise copies of the frame
      until a write fails or all duplicates are out. `writesBeforeError` is the number of writes the socket accepts. */
  method SendUDP(p: Pckt, lost: bool, duplicates: nat, writesBeforeError: nat) returns (writes: seq<bytes>, ok: bool)
    ensures forall w | w in writes :: w == FrameOf(p)
    ensures |writes|
         == if lost then 0 else if writesBeforeError <= duplicates then writesBeforeError else duplicates + 1
    ensures ok <==> lost || writesBeforeError > duplicates
  {
    var frame := SealInPlace(p);
    writes := [];
    if !lost {
      var i := 0;
      while i <= duplicates
        invariant i == |writes| <= duplicates + 1 && i <= writesBeforeError
        invariant frame[..] == FrameOf(p)
        invariant forall w | w in writes :: w == FrameOf(p)
      {
        if i == writesBeforeError {
          return writes, false;
        }
        writes := writes + [frame[..]];
        i := i + 1;
      }
    }
    ok := true;
  }

  // ----- the receiving side of an undamaged frame -----

  /** The packet a receiver parses from the frame of `p`: the same but for the filled-in checksum. */
  function WireCopy(p: Pckt): Pckt {
    DeserializePacket(FrameOf(p)).value
  }

  lemma SealParts(raw: bytes)
    requires |raw| >= HEADER_SIZE
    ensures Seal(raw)[..4] == raw[..4] && Seal(raw)[8..] == raw[8..]
    ensures Seal(raw)[4..8] == Crc32.PutWord(Crc32.Checksum(raw[8..]))
  {}

  /** What the receiver finds in the checksum field is the CRC of everything behind it, as a number. */
  lemma ChecksumField(p: Pckt)
    ensures WireCopy(p).header.checksum
         == Crc32.ValueOf(Crc32.WordBits(Crc32.Checksum(SerializePacket(p)[8..]), 32))
  {
    var frame, c := FrameOf(p), Crc32.Checksum(SerializePacket(p)[8..]);
    SealParts(SerializePacket(p));
    Crc32.PutWordBigEndian(c);
    assert frame[4..][..4] == Crc32.PutWord(c);
    PutGetU32(frame[4..]);
    PutGetU32(Crc32.PutWord(c));
    assert Crc32.PutWord(c)[..4] == Crc32.PutWord(c);
    GetPutU32(GetU32(frame[4..]), []);
    GetPutU32(GetU32(Crc32.PutWord(c)), []);
  }

  /** Writing the checksum does not disturb the bytes it covers, so the checksum test always passes. */
  lemma SealedVerifies(raw: bytes)
    requires |raw| >= HEADER_SIZE
    ensures VerifyChecksum(Seal(raw)) == Success(true)
    ensures VerifyMagic(Seal(raw)) == VerifyMagic(raw)
  {
    SealParts(raw);
  }

  lemma MagicBytes(m: u32)
    ensures PutU32(m) == MAGIC_BYTES <==> m == MAGIC_CONST
  {
    MagicPrinted();
    if PutU32(m) == PutU32(MAGIC_CONST) {
      PutU32Injective(m, MAGIC_CONST);
    }
  }

  lemma MagicPrinted()
    ensures PutU32(MAGIC_CONST) == MAGIC_BYTES
  {}

  /** The whole way from sender to receiver. */
  lemma FrameRoundTrip(p: Pckt)
    ensures VerifyPacket(FrameOf(p)) == Success(p.header.magic == MAGIC_CONST)
    ensures DeserializePacket(FrameOf(p)) == Success(WireCopy(p))
    ensures WireCopy(p) == p.(header := p.header.(checksum := WireCopy(p).header.checksum))
  {
    var raw := SerializePacket(p);
    SealedVerifies(raw);
    MagicBytes(p.header.magic);
    HeaderSlices(p.header, p.body);
    SealedHeader(raw, Seal(raw));
    ParsePrintHeader(p.header, p.body);
    Split(HeaderBytes(p.header), p.body);
  }

  lemma HeaderSlices(h: PcktHeader, body: bytes)
    ensures (HeaderBytes(h) + body)[..4] == PutU32(h.magic)
  {}

  /** Two byte strings that agree outside bytes 4 to 7 parse to the same packet but for the checksum. */
  lemma SealedHeader(raw: bytes, frame: bytes)
    requires |raw| == |frame| >= HEADER_SIZE && raw[..4] == frame[..4] && raw[8..] == frame[8..]
    ensures ParseHeader(frame) == ParseHeader(raw).(checksum := ParseHeader(frame).checksum)
    ensures frame[HEADER_SIZE..] == raw[HEADER_SIZE..]
  {}

  // ----- damaged frames -----

  /** An error burst of at most 32 bits, at any bit offset of the bytes the checksum covers, is always rejected. */
  lemma BurstRejected(p: Pckt, damaged: bytes, offset: nat)
    requires |damaged| == |FrameOf(p)| && damaged != FrameOf(p)
    requires damaged[..8] == FrameOf(p)[..8]
    requires Crc32.BurstAt(FrameOf(p)[8..], damaged[8..], offset)
    ensures VerifyPacket(damaged) == Success(false)
  {
    var frame, raw := FrameOf(p), SerializePacket(p);
    SealParts(raw);
    assert damaged[4..8] == damaged[..8][4..] && frame[4..8] == frame[..8][4..];
    assert frame == frame[..8] + frame[8..] && damaged == damaged[..8] + damaged[8..];
    if VerifyChecksum(damaged) == Success(true) {
      Crc32.PutWordInjective(Crc32.Checksum(damaged[8..]), Crc32.Checksum(frame[8..]));
      Crc32.BurstDetected(frame[8..], damaged[8..], offset);
    }
  }

  /** In bytes: any change confined to four consecutive bytes from index 8 on is rejected. */
  lemma FourByteDamageRejected(p: Pckt, damaged: bytes, i: nat)
    requires |damaged| == |FrameOf(p)| && damaged != FrameOf(p) && i >= 8
    requires forall k | 0 <= k < |damaged| && !(i <= k < i + 4) :: damaged[k] == FrameOf(p)[k]
    ensures VerifyPacket(damaged) == Success(false)
  {
    var frame := FrameOf(p);
    forall k | 0 <= k < |frame| - 8 && !(i - 8 <= k < i - 8 + 4) ensures frame[8..][k] == damaged[8..][k] {
      assert frame[8..][k] == frame[k + 8] && damaged[8..][k] == damaged[k + 8];
    }
    Crc32.FourBytesAreABurst(frame[8..], damaged[8..], i - 8);
    BurstRejected(p, damaged, 8 * (i - 8));
  }

  /** Damage to the magic or the checksum field alone is rejected too. */
  lemma PrefixDamageRejected(p: Pckt, damaged: bytes)
    requires |damaged| == |FrameOf(p)| && p.header.magic == MAGIC_CONST
    requires damaged[8..] == FrameOf(p)[8..] && damaged[..8] != FrameOf(p)[..8]
    ensures VerifyPacket(damaged) == Success(false)
  {
    var frame, raw := FrameOf(p), SerializePacket(p);
    SealParts(raw);
    FrameRoundTrip(p);
    assert damaged[..8] == damaged[0..4] + damaged[4..8] && frame[..8] == frame[0..4] + frame[4..8];
  }
}
