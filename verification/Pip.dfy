/** Bodies carried inside packets: hello, vote request and vote response (udp/pip.go). */
module Pip {
  import opened Bytes
  import opened Wrappers

  type VoteId = v: bytes | |v| == 16 witness seq(16, _ => 0)

  datatype Hello = Hello(dataId: u16, version: u32, numFeatures: u16, features: seq<u16>)
  datatype VoteRequest = VoteRequest(dataId: u16, voteId: VoteId, questionLength: u32, question: bytes)
  datatype VoteResponse = VoteResponse(dataId: u16, voteId: VoteId, response: u16)

  // ----- hello -----

  function FeatureBytes(features: seq<u16>): (r: bytes)
    ensures |r| == 2 * |features|
  {
    if features == [] then [] else PutU16(features[0]) + FeatureBytes(features[1..])
  }

  /** The features count is the actual list length, cut to 16 bits; the struct's own count is ignored. */
  function HelloBytes(h: Hello): bytes {
    PutU16(h.dataId) + (PutU32(h.version) + (PutU16(Truncate16(|h.features|)) + FeatureBytes(h.features)))
  }

  function ParseFeatures(d: bytes, n: nat): (r: Result<seq<u16>>)
    ensures r.Success? <==> |d| >= 2 * n
    ensures r.Success? ==> |r.value| == n
    decreases n
  {
    if n == 0 then Success([])
    else
      var (first, rest) :- ReadU16(d);
      var others :- ParseFeatures(rest, n - 1);
      Success([first] + others)
  }

  function ParseHello(d: bytes): Result<Hello> {
    var (dataId, d1) :- ReadU16(d);
    var (version, d2) :- ReadU32(d1);
    var (count, d3) :- ReadU16(d2);
    var features :- ParseFeatures(d3, count);
    Success(Hello(dataId, version, count, features))
  }

  lemma {:induction false} ParsePrintFeatures(features: seq<u16>, rest: bytes)
    ensures ParseFeatures(FeatureBytes(features) + rest, |features|) == Success(features)
    decreases |features|
  {
    if features != [] {
      var tail := FeatureBytes(features[1..]) + rest;
      ReadPutU16(features[0], tail);
      assert FeatureBytes(features) + rest == PutU16(features[0]) + tail;
      ParsePrintFeatures(features[1..], rest);
      assert features == [features[0]] + features[1..];
    }
  }

  lemma {:induction false} PrintParseFeatures(d: bytes, n: nat)
    requires |d| >= 2 * n
    ensures FeatureBytes(ParseFeatures(d, n).value) == d[..2 * n]
  {
    if n > 0 {
      PrintParseFeatures(d[2..], n - 1);
      PutGetU16(d);
      assert ParseFeatures(d, n).value == [GetU16(d)] + ParseFeatures(d[2..], n - 1).value;
      assert d[..2 * n] == d[..2] + d[2..][..2 * (n - 1)];
    }
  }

  lemma ReadPutU16(x: u16, rest: bytes)
    ensures ReadU16(PutU16(x) + rest) == Success((x, rest))
  {}

  lemma ReadPutU32(x: u32, rest: bytes)
    ensures ReadU32(PutU32(x) + rest) == Success((x, rest))
  {}

  lemma ReadPutBytes(x: bytes, rest: bytes)
    ensures ReadBytes(x + rest, |x|) == Success((x, rest))
  {}

  /** The parser succeeds exactly when its four reads do. */
  lemma HelloReads(d: bytes, h: Hello, d1: bytes, d2: bytes, d3: bytes)
    requires ReadU16(d) == Success((h.dataId, d1)) && ReadU32(d1) == Success((h.version, d2))
    requires ReadU16(d2) == Success((h.numFeatures, d3)) && ParseFeatures(d3, h.numFeatures) == Success(h.features)
    ensures ParseHello(d) == Success(h)
  {}

  lemma HelloFields(d: bytes, h: Hello)
    requires ParseHello(d) == Success(h)
    ensures |d| >= 8 + 2 * h.numFeatures && h.numFeatures == |h.features|
    ensures h.dataId == GetU16(d) && h.version == GetU32(d[2..]) && h.numFeatures == GetU16(d[6..])
    ensures ParseFeatures(d[8..], h.numFeatures) == Success(h.features)
  {}

  lemma ParsePrintHello(h: Hello, rest: bytes)
    requires h.numFeatures == |h.features|
    ensures ParseHello(HelloBytes(h) + rest) == Success(h)
  {
    var d3 := FeatureBytes(h.features) + rest;
    var d2 := PutU16(h.numFeatures) + d3;
    var d1 := PutU32(h.version) + d2;
    Regroup(PutU16(h.dataId), PutU32(h.version), PutU16(h.numFeatures), FeatureBytes(h.features), rest);
    ReadPutU16(h.dataId, d1);
    ReadPutU32(h.version, d2);
    ReadPutU16(h.numFeatures, d3);
    ParsePrintFeatures(h.features, rest);
    HelloReads(HelloBytes(h) + rest, h, d1, d2, d3);
  }

  lemma PrintParseHello(d: bytes, h: Hello)
    requires ParseHello(d) == Success(h)
    ensures h.numFeatures == |h.features| && HelloBytes(h) <= d
  {
    HelloFields(d, h);
    PutGetU16(d);
    PutGetU32(d[2..]);
    PutGetU16(d[6..]);
    PrintParseFeatures(d[8..], h.numFeatures);
    Pieces(d, 2, 6, 8, 8 + 2 * h.numFeatures,
           PutU16(h.dataId), PutU32(h.version), PutU16(h.numFeatures), FeatureBytes(h.features));
  }

  /** A reader gets `h` exactly when the input starts with what the writer prints for `h`. */
  lemma HelloParses(d: bytes, h: Hello)
    ensures ParseHello(d) == Success(h) <==> h.numFeatures == |h.features| && HelloBytes(h) <= d
  {
    if h.numFeatures == |h.features| && HelloBytes(h) <= d {
      var rest := d[|HelloBytes(h)|..];
      ParsePrintHello(h, rest);
      assert d == HelloBytes(h) + rest;
    }
    if ParseHello(d) == Success(h) {
      PrintParseHello(d, h);
    }
  }

  lemma Regroup(a: bytes, b: bytes, c: bytes, e: bytes, rest: bytes)
    ensures a + (b + (c + e)) + rest == a + (b + (c + (e + rest)))
  {}

  lemma Pieces(d: bytes, i: nat, j: nat, k: nat, l: nat, a: bytes, b: bytes, c: bytes, e: bytes)
    requires i <= j <= k <= l <= |d|
    requires a == d[..i] && b == d[i..][..j - i] && c == d[j..][..k - j] && e == d[k..][..l - k]
    ensures a + (b + (c + e)) <= d
  {}

  /** Round trip with any trailing bytes, and exactly when it works: the struct's own count must be right. */
  lemma HelloSelfDelimiting(h: Hello, trailing: bytes)
    ensures ParseHello(HelloBytes(h) + trailing) == Success(h) <==> h.numFeatures == |h.features|
  {
    HelloParses(HelloBytes(h) + trailing, h);
  }

  lemma HelloCutShort(h: Hello, d: bytes)
    requires h.numFeatures == |h.features| && d < HelloBytes(h)
    ensures ParseHello(d).Failure?
  {}

  /** No serialization is a prefix of another. */
  lemma HelloPrefixFree(g: Hello, h: Hello)
    requires g.numFeatures == |g.features| && h.numFeatures == |h.features|
    requires HelloBytes(g) <= HelloBytes(h)
    ensures g == h
  {
    HelloParses(HelloBytes(h), g);
    HelloParses(HelloBytes(h), h);
  }

  /** What every reader gets back of `h`: the count is the list's length cut to 16 bits, and so is the list. */
  function HelloAsRead(h: Hello): Hello {
    var n := Truncate16(|h.features|);
    h.(numFeatures := n, features := h.features[..n])
  }

  lemma {:induction false} FeatureBytesConcat(a: seq<u16>, b: seq<u16>)
    ensures FeatureBytes(a + b) == FeatureBytes(a) + FeatureBytes(b)
    decreases |a|
  {
    if a == [] {
      assert a + b == b;
    } else {
      assert (a + b)[1..] == a[1..] + b;
      FeatureBytesConcat(a[1..], b);
    }
  }

  lemma MoveOver(a: bytes, b: bytes, c: bytes, e: bytes, more: bytes, trailing: bytes)
    ensures a + (b + (c + (e + more))) + trailing == a + (b + (c + e)) + (more + trailing)
  {}

  lemma HelloReadBack(h: Hello, trailing: bytes)
    ensures ParseHello(HelloBytes(h) + trailing) == Success(HelloAsRead(h))
  {
    var n := Truncate16(|h.features|);
    var more := FeatureBytes(h.features[n..]);
    assert h.features == h.features[..n] + h.features[n..];
    FeatureBytesConcat(h.features[..n], h.features[n..]);
    ParsePrintHello(HelloAsRead(h), more + trailing);
    MoveOver(PutU16(h.dataId), PutU32(h.version), PutU16(n), FeatureBytes(h.features[..n]), more, trailing);
  }

  method SerializeHello(h: Hello) returns (buf: bytes)
    ensures buf == HelloBytes(h) && |buf| == 8 + 2 * |h.features|
    ensures forall trailing :: ParseHello(buf + trailing) == Success(HelloAsRead(h))
  {
    buf := PutU16(h.dataId);
    buf := buf + PutU32(h.version);
    buf := buf + PutU16(Truncate16(|h.features|));
    buf := buf + FeatureBytes(h.features);
    assert buf == HelloBytes(h);
    forall trailing ensures ParseHello(buf + trailing) == Success(HelloAsRead(h)) {
      HelloReadBack(h, trailing);
    }
  }

  method DeserializeHello(raw: bytes) returns (r: Result<Hello>)
    ensures r == ParseHello(raw)
    ensures forall h :: r == Success(h) <==> h.numFeatures == |h.features| && HelloBytes(h) <= raw
    ensures r.Failure? <==> |raw| < 8 || |raw| < 8 + 2 * GetU16(raw[6..])
  {
    forall h ensures ParseHello(raw) == Success(h) <==> h.numFeatures == |h.features| && HelloBytes(h) <= raw {
      HelloParses(raw, h);
    }
    HelloCount(raw);
    var dataId :- ReadU16(raw);
    var version :- ReadU32(dataId.1);
    var count :- ReadU16(version.1);
    var features :- ParseFeatures(count.1, count.0);
    return Success(Hello(dataId.0, version.0, count.0, features));
  }

  lemma HelloCount(d: bytes)
    ensures ParseHello(d).Failure? <==> |d| < 8 || |d| < 8 + 2 * GetU16(d[6..])
  {
    if |d| >= 8 {
      assert d[2..][4..] == d[6..] && d[6..][2..] == d[8..];
    }
  }

  // ----- vote request and question broadcast -----

  /** The question length is the actual length, cut to 32 bits; the struct's own length is ignored. */
  function VoteRequestBytes(q: VoteRequest): bytes {
    PutU16(q.dataId) + (q.voteId + (PutU32(Truncate32(|q.question|)) + q.question))
  }

  function ParseVoteRequest(d: bytes): Result<VoteRequest> {
    var (dataId, d1) :- ReadU16(d);
    var (voteId, d2) :- ReadBytes(d1, 16);
    var (length, d3) :- ReadU32(d2);
    var (question, _) :- ReadBytes(d3, length);
    Success(VoteRequest(dataId, voteId, length, question))
  }

  /** The parser succeeds exactly when its four reads do. */
  lemma VoteRequestReads(d: bytes, q: VoteRequest, d1: bytes, d2: bytes, d3: bytes, rest: bytes)
    requires ReadU16(d) == Success((q.dataId, d1)) && ReadBytes(d1, 16) == Success((q.voteId, d2))
    requires ReadU32(d2) == Success((q.questionLength, d3))
    requires ReadBytes(d3, q.questionLength) == Success((q.question, rest))
    ensures ParseVoteRequest(d) == Success(q)
  {}

  lemma VoteRequestFields(d: bytes, q: VoteRequest)
    requires ParseVoteRequest(d) == Success(q)
    ensures |d| >= 22 + q.questionLength && q.questionLength == |q.question|
    ensures q.dataId == GetU16(d) && q.voteId == d[2..][..16] && q.questionLength == GetU32(d[18..])
    ensures q.question == d[22..][..q.questionLength]
  {}

  lemma ParsePrintVoteRequest(q: VoteRequest, rest: bytes)
    requires q.questionLength == |q.question|
    ensures ParseVoteRequest(VoteRequestBytes(q) + rest) == Success(q)
  {
    var d3 := q.question + rest;
    var d2 := PutU32(q.questionLength) + d3;
    var d1 := q.voteId + d2;
    Regroup(PutU16(q.dataId), q.voteId, PutU32(q.questionLength), q.question, rest);
    ReadPutU16(q.dataId, d1);
    ReadPutBytes(q.voteId, d2);
    ReadPutU32(q.questionLength, d3);
    ReadPutBytes(q.question, rest);
    VoteRequestReads(VoteRequestBytes(q) + rest, q, d1, d2, d3, rest);
  }

  lemma PrintParseVoteRequest(d: bytes, q: VoteRequest)
    requires ParseVoteRequest(d) == Success(q)
    ensures q.questionLength == |q.question| && VoteRequestBytes(q) <= d
  {
    VoteRequestFields(d, q);
    PutGetU16(d);
    PutGetU32(d[18..]);
    Pieces(d, 2, 18, 22, 22 + q.questionLength, PutU16(q.dataId), q.voteId, PutU32(q.questionLength), q.question);
  }

  lemma VoteRequestParses(d: bytes, q: VoteRequest)
    ensures ParseVoteRequest(d) == Success(q) <==> q.questionLength == |q.question| && VoteRequestBytes(q) <= d
  {
    if q.questionLength == |q.question| && VoteRequestBytes(q) <= d {
      var rest := d[|VoteRequestBytes(q)|..];
      ParsePrintVoteRequest(q, rest);
      assert d == VoteRequestBytes(q) + rest;
    }
    if ParseVoteRequest(d) == Success(q) {
      PrintParseVoteRequest(d, q);
    }
  }

  lemma VoteRequestSelfDelimiting(q: VoteRequest, trailing: bytes)
    ensures ParseVoteRequest(VoteRequestBytes(q) + trailing) == Success(q) <==> q.questionLength == |q.question|
  {
    VoteRequestParses(VoteRequestBytes(q) + trailing, q);
  }

  lemma VoteRequestCutShort(q: VoteRequest, d: bytes)
    requires q.questionLength == |q.question| && d < VoteRequestBytes(q)
    ensures ParseVoteRequest(d).Failure?
  {}

  lemma VoteRequestPrefixFree(p: VoteRequest, q: VoteRequest)
    requires p.questionLength == |p.question| && q.questionLength == |q.question|
    requires VoteRequestBytes(p) <= VoteRequestBytes(q)
    ensures p == q
  {
    VoteRequestParses(VoteRequestBytes(q), p);
    VoteRequestParses(VoteRequestBytes(q), q);
  }

  /** What every reader gets back of `q`: the length is the question's cut to 32 bits, and so is the question. */
  function VoteRequestAsRead(q: VoteRequest): VoteRequest {
    var n := Truncate32(|q.question|);
    q.(questionLength := n, question := q.question[..n])
  }

  lemma VoteRequestReadBack(q: VoteRequest, trailing: bytes)
    ensures ParseVoteRequest(VoteRequestBytes(q) + trailing) == Success(VoteRequestAsRead(q))
  {
    var n := Truncate32(|q.question|);
    var more := q.question[n..];
    assert q.question == q.question[..n] + more;
    ParsePrintVoteRequest(VoteRequestAsRead(q), more + trailing);
    MoveOver(PutU16(q.dataId), q.voteId, PutU32(n), q.question[..n], more, trailing);
  }

  method SerializeVoteRequest(q: VoteRequest) returns (buf: bytes)
    ensures buf == VoteRequestBytes(q) && |buf| == 22 + |q.question|
    ensures forall trailing :: ParseVoteRequest(buf + trailing) == Success(VoteRequestAsRead(q))
  {
    buf := PutU16(q.dataId);
    buf := buf + q.voteId;
    buf := buf + PutU32(Truncate32(|q.question|));
    buf := buf + q.question;
    assert buf == VoteRequestBytes(q);
    forall trailing ensures ParseVoteRequest(buf + trailing) == Success(VoteRequestAsRead(q)) {
      VoteRequestReadBack(q, trailing);
    }
  }

  method DeserializeVoteRequest(raw: bytes) returns (r: Result<VoteRequest>)
    ensures r == ParseVoteRequest(raw)
    ensures forall q :: r == Success(q) <==> q.questionLength == |q.question| && VoteRequestBytes(q) <= raw
    ensures r.Failure? <==> |raw| < 22 || |raw| < 22 + GetU32(raw[18..])
  {
    forall q
      ensures ParseVoteRequest(raw) == Success(q) <==> q.questionLength == |q.question| && VoteRequestBytes(q) <= raw
    {
      VoteRequestParses(raw, q);
    }
    VoteRequestLength(raw);
    var dataId :- ReadU16(raw);
    var voteId :- ReadBytes(dataId.1, 16);
    var length :- ReadU32(voteId.1);
    var question :- ReadBytes(length.1, length.0);
    return Success(VoteRequest(dataId.0, voteId.0, length.0, question.0));
  }

  lemma VoteRequestLength(d: bytes)
    ensures ParseVoteRequest(d).Failure? <==> |d| < 22 || |d| < 22 + GetU32(d[18..])
  {
    if |d| >= 22 {
      assert d[2..][16..] == d[18..] && d[18..][4..] == d[22..];
    }
  }

  // ----- vote response and result broadcast -----

  function VoteResponseBytes(v: VoteResponse): (r: bytes)
    ensures |r| == 20
  {
    PutU16(v.dataId) + (v.voteId + PutU16(v.response))
  }

  function ParseVoteResponse(d: bytes): Result<VoteResponse> {
    var (dataId, d1) :- ReadU16(d);
    var (voteId, d2) :- ReadBytes(d1, 16);
    var (response, _) :- ReadU16(d2);
    Success(VoteResponse(dataId, voteId, response))
  }

  lemma ParsePrintVoteResponse(v: VoteResponse, rest: bytes)
    ensures ParseVoteResponse(VoteResponseBytes(v) + rest) == Success(v)
  {
    Regroup(PutU16(v.dataId), v.voteId, PutU16(v.response), [], rest);
    assert PutU16(v.response) + [] == PutU16(v.response) && [] + rest == rest;
    ReadPutU16(v.dataId, v.voteId + (PutU16(v.response) + rest));
    ReadPutBytes(v.voteId, PutU16(v.response) + rest);
    ReadPutU16(v.response, rest);
  }

  lemma PrintParseVoteResponse(d: bytes, v: VoteResponse)
    requires ParseVoteResponse(d) == Success(v)
    ensures VoteResponseBytes(v) <= d
  {}

  lemma VoteResponseParses(d: bytes, v: VoteResponse)
    ensures ParseVoteResponse(d) == Success(v) <==> VoteResponseBytes(v) <= d
  {
    if VoteResponseBytes(v) <= d {
      ParsePrintVoteResponse(v, d[20..]);
      assert d == VoteResponseBytes(v) + d[20..];
    }
    if ParseVoteResponse(d) == Success(v) {
      PrintParseVoteResponse(d, v);
    }
  }

  method SerializeVoteResponse(v: VoteResponse) returns (buf: bytes)
    ensures buf == VoteResponseBytes(v) && |buf| == 20
    ensures forall trailing :: ParseVoteResponse(buf + trailing) == Success(v)
  {
    buf := PutU16(v.dataId);
    buf := buf + v.voteId;
    buf := buf + PutU16(v.response);
    assert buf == VoteResponseBytes(v);
    forall trailing ensures ParseVoteResponse(buf + trailing) == Success(v) {
      ParsePrintVoteResponse(v, trailing);
    }
  }

  method DeserializeVoteResponse(raw: bytes) returns (r: Result<VoteResponse>)
    ensures r == ParseVoteResponse(raw)
    ensures forall v :: r == Success(v) <==> VoteResponseBytes(v) <= raw
    ensures r.Failure? <==> |raw| < 20
  {
    forall v ensures ParseVoteResponse(raw) == Success(v) <==> VoteResponseBytes(v) <= raw {
      VoteResponseParses(raw, v);
    }
    var dataId :- ReadU16(raw);
    var voteId :- ReadBytes(dataId.1, 16);
    var response :- ReadU16(voteId.1);
    return Success(VoteResponse(dataId.0, voteId.0, response.0));
  }
}
