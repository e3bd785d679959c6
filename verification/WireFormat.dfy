/** What is on the wire, byte by byte: where each field is, in which order its bytes come, and which numbers stand for
    what (udp/global.go:13-54). Stated of the bytes alone, as a second account of what other modules print and parse. */
module WireFormat {
  import opened Bytes
  import opened Wrappers
  import opened Packet
  import opened Pip
  import opened Messages
  import Crc32
  import Frame

  /** The number a byte string stands for, most significant byte first. */
  function BigEndian(b: bytes): nat {
    if b == [] then 0 else 256 * BigEndian(b[..|b| - 1]) + b[|b| - 1]
  }

  lemma TwoBytes(d: bytes, i: nat)
    requires i + 2 <= |d|
    ensures BigEndian(d[i..i + 2]) == GetU16(d[i..])
  {
    var b := d[i..i + 2];
    assert b[..1] == [d[i]] && b[1] == d[i + 1];
    assert BigEndian([d[i]]) == d[i];
  }

  lemma FourBytes(d: bytes, i: nat)
    requires i + 4 <= |d|
    ensures BigEndian(d[i..i + 4]) == GetU32(d[i..])
  {
    var b := d[i..i + 4];
    assert BigEndian(b) == 256 * BigEndian(b[..3]) + b[3];
    assert b[..3] == d[i..i + 3];
    var c := d[i..i + 3];
    assert c[..2] == d[i..i + 2];
    TwoBytes(d, i);
    assert d[i..][2..] == d[i + 2..];
  }

  // ----- bodies -----

  ghost predicate HelloFormat(b: bytes, id: nat, features: seq<u16>) {
    && |b| >= 8 + 2 * |features| && BigEndian(b[0..2]) == id && BigEndian(b[6..8]) == |features|
    && forall k: nat | k < |features| :: BigEndian(b[8 + 2 * k..10 + 2 * k]) == features[k]
  }

  ghost predicate QuestionFormat(b: bytes, id: nat, v: VoteId, question: bytes) {
    && |b| >= 22 + |question| && BigEndian(b[0..2]) == id && b[2..18] == v
    && BigEndian(b[18..22]) == |question| && b[22..22 + |question|] == question
  }

  ghost predicate ResponseFormat(b: bytes, id: nat, v: VoteId, response: u16) {
    |b| >= 20 && BigEndian(b[0..2]) == id && b[2..18] == v && BigEndian(b[18..20]) == response
  }

  /** The body `b` says `m`. */
  ghost predicate Says(b: bytes, m: Msg) {
    match m
    case Greet(f) => HelloFormat(b, 0, f)
    case GreetBack(f) => HelloFormat(b, 1, f)
    case RequestVote(v, q) => QuestionFormat(b, 2, v, q)
    case AskQuestion(v, q) => QuestionFormat(b, 3, v, q)
    case CastVote(v, r) => ResponseFormat(b, 4, v, r)
    case AnnounceResult(v, r) => ResponseFormat(b, 5, v, r)
  }

  lemma {:induction false} FeatureAt(d: bytes, n: nat, k: nat)
    requires k < n && 2 * n <= |d|
    ensures ParseFeatures(d, n).Success? && ParseFeatures(d, n).value[k] == GetU16(d[2 * k..])
    decreases n
  {
    assert ParseFeatures(d, n).value == [GetU16(d)] + ParseFeatures(d[2..], n - 1).value;
    if k > 0 {
      FeatureAt(d[2..], n - 1, k - 1);
      assert d[2..][2 * (k - 1)..] == d[2 * k..];
    } else {
      assert d[0..] == d;
    }
  }

  lemma HelloSays(b: bytes, id: u16, f: seq<u16>)
    ensures (exists version: u32, n: u16 :: ParseHello(b) == Success(Hello(id, version, n, f)))
       <==> HelloFormat(b, id, f)
  {
    HelloCount(b);
    if |b| >= 8 {
      TwoBytes(b, 0);
      TwoBytes(b, 6);
      assert b[0..] == b;
    }
    if ParseHello(b).Success? {
      var h := ParseHello(b).value;
      HelloFields(b, h);
      forall k: nat | k < |h.features| ensures BigEndian(b[8 + 2 * k..10 + 2 * k]) == h.features[k] {
        FeatureAt(b[8..], h.numFeatures, k);
        TwoBytes(b, 8 + 2 * k);
        assert b[8..][2 * k..] == b[8 + 2 * k..];
      }
      if HelloFormat(b, id, f) {
        assert |f| == |h.features|;
        assert forall k | 0 <= k < |f| :: f[k] == h.features[k];
        assert f == h.features;
        assert h == Hello(id, h.version, h.numFeatures, f);
      }
    }
  }

  lemma QuestionSays(b: bytes, id: u16, v: VoteId, q: bytes)
    ensures (exists n: u32 :: ParseVoteRequest(b) == Success(VoteRequest(id, v, n, q))) <==> QuestionFormat(b, id, v, q)
  {
    VoteRequestLength(b);
    if |b| >= 22 {
      TwoBytes(b, 0);
      FourBytes(b, 18);
      assert b[0..] == b;
    }
    if ParseVoteRequest(b).Success? {
      var r := ParseVoteRequest(b).value;
      VoteRequestFields(b, r);
      assert b[2..][..16] == b[2..18];
      assert b[22..][..r.questionLength] == b[22..22 + r.questionLength];
      if QuestionFormat(b, id, v, q) {
        assert r == VoteRequest(id, v, r.questionLength, q);
      }
    }
  }

  lemma ResponseSays(b: bytes, id: u16, v: VoteId, r: u16)
    ensures ParseVoteResponse(b) == Success(VoteResponse(id, v, r)) <==> ResponseFormat(b, id, v, r)
  {
    if |b| >= 20 {
      TwoBytes(b, 0);
      TwoBytes(b, 18);
      assert b[0..] == b && b[2..][..16] == b[2..18] && b[2..][16..] == b[18..];
    }
  }

  /** `incomingProcessor` gets the message `m` out of a body if and only if the body says so. */
  lemma DecodeExactly(b: bytes, m: Msg)
    ensures Decode(b) == Some(m) <==> Says(b, m)
  {
    DataIdIs(b);
    match m {
      case Greet(f) => HelloSays(b, 0, f);
      case GreetBack(f) => HelloSays(b, 1, f);
      case RequestVote(v, q) => QuestionSays(b, 2, v, q);
      case AskQuestion(v, q) => QuestionSays(b, 3, v, q);
      case CastVote(v, r) => ResponseSays(b, 4, v, r);
      case AnnounceResult(v, r) => ResponseSays(b, 5, v, r);
    }
  }

  lemma DataIdIs(b: bytes)
    ensures |b| >= 2 ==> DataId(b) == BigEndian(b[0..2])
  {
    if |b| >= 2 {
      TwoBytes(b, 0);
      assert b[0..] == b;
    }
  }

  /** How long the body of `m` is; a list or a question may be longer than its count can say. */
  function BodyLength(m: Msg): nat {
    match m
    case Greet(f) => 8 + 2 * |f|
    case GreetBack(f) => 8 + 2 * |f|
    case RequestVote(_, q) => 22 + |q|
    case AskQuestion(_, q) => 22 + |q|
    case CastVote(_, _) => 20
    case AnnounceResult(_, _) => 20
  }

  /** A message is queued if and only if its body is at most 250 bytes long, and then its body says it, with nothing
      behind it and version 0 in a hello. */
  lemma EncodeSays(m: Msg)
    ensures |Encode(m)| == BodyLength(m) && (Fits(m) <==> BodyLength(m) <= 250)
    ensures Fits(m) ==> Says(Encode(m), m)
    ensures m.Greet? || m.GreetBack? ==> BigEndian(Encode(m)[2..6]) == 0
  {
    if Fits(m) {
      DecodeEncode(m);
      DecodeExactly(Encode(m), m);
    }
    if m.Greet? || m.GreetBack? {
      FourBytes(Encode(m), 2);
      HelloReadBack(Hello(if m.Greet? then 0 else 1, 0, Truncate16(|m.features|), m.features), []);
      assert Encode(m) + [] == Encode(m);
    }
  }

  // ----- frames -----

  /** The frame of a packet: magic, checksum, conversation, packet number, sequence number, final flag and type, in
      this order and most significant byte first, and then the body. */
  lemma FrameLayout(p: Pckt)
    ensures var f := Frame.FrameOf(p);
      && |f| == 24 + |p.body| && f[24..] == p.body
      && BigEndian(f[0..4]) == p.header.magic
      && BigEndian(f[4..8]) == Crc32.ValueOf(Crc32.WordBits(Crc32.Checksum(f[8..]), 32))
      && BigEndian(f[8..12]) == p.header.convId
      && BigEndian(f[12..16]) == p.header.packetNum
      && BigEndian(f[16..20]) == p.header.sequenceNum
      && BigEndian(f[20..22]) == p.header.isFinal
      && BigEndian(f[22..24]) == p.header.kind
  {
    var f := Frame.FrameOf(p);
    Frame.FrameRoundTrip(p);
    Frame.SealParts(SerializePacket(p));
    Frame.ChecksumField(p);
    HeaderLayout(f);
  }

  lemma HeaderLayout(f: bytes)
    requires |f| >= HEADER_SIZE
    ensures var h := ParseHeader(f);
      && h.magic == BigEndian(f[0..4]) && h.checksum == BigEndian(f[4..8]) && h.convId == BigEndian(f[8..12])
      && h.packetNum == BigEndian(f[12..16]) && h.sequenceNum == BigEndian(f[16..20])
      && h.isFinal == BigEndian(f[20..22]) && h.kind == BigEndian(f[22..24])
  {
    assert f[0..] == f;
    FourBytes(f, 0);
    FourBytes(f, 4);
    FourBytes(f, 8);
    FourBytes(f, 12);
    FourBytes(f, 16);
    TwoBytes(f, 20);
    TwoBytes(f, 22);
  }

  /** A frame passes verification if and only if it starts with 1, 5, 17 and 23 and carries the checksum of what
      follows byte 7. */
  lemma VerifiesExactly(f: bytes)
    requires |f| >= 24
    ensures VerifyPacket(f) == Success(
              && f[0..4] == [1, 5, 17, 23]
              && BigEndian(f[4..8]) == Crc32.ValueOf(Crc32.WordBits(Crc32.Checksum(f[8..]), 32)))
  {
    ChecksumVerified(f);
  }

  lemma ChecksumVerified(f: bytes)
    requires |f| >= 24
    ensures VerifyChecksum(f) == Success(
              BigEndian(f[4..8]) == Crc32.ValueOf(Crc32.WordBits(Crc32.Checksum(f[8..]), 32)))
  {
    ChecksumCompared(f, Crc32.Checksum(f[8..]));
  }

  lemma ChecksumCompared(f: bytes, c: bv32)
    requires |f| >= 24
    ensures f[4..8] == Crc32.PutWord(c) <==> BigEndian(f[4..8]) == Crc32.ValueOf(Crc32.WordBits(c, 32))
  {
    SameNumber(f[4..8], Crc32.PutWord(c));
    Crc32.PutWordBigEndian(c);
  }

  /** Four bytes are told apart by their number. */
  lemma SameNumber(a: bytes, b: bytes)
    requires |a| == |b| == 4
    ensures a == b <==> BigEndian(a) == GetU32(b)
  {
    FourBytes(a, 0);
    assert a[0..4] == a == a[0..];
    PutGetU32(a);
    PutGetU32(b);
    assert a[..4] == a && b[..4] == b;
  }
}
