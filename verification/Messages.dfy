/** The six bodies nodes exchange, as their senders print them and as `incomingProcessor` reads them. */
module Messages {
  import opened Bytes
  import opened Wrappers
  import opened Pip

  // Data IDs
  const HELLO_C2S: u16 := 0
  const HELLO_BACK_S2C: u16 := 1
  const VOTE_C2S_REQUEST_VOTE: u16 := 2
  const VOTE_S2C_BROADCAST_QUESTION: u16 := 3
  const VOTE_C2S_RESPONSE_TO_QUESTION: u16 := 4
  const VOTE_S2C_BROADCAST_RESULT: u16 := 5

  const MAX_PCKT_SIZE := 250

  datatype Msg =
    | Greet(features: seq<u16>)
    | GreetBack(features: seq<u16>)
    | RequestVote(voteId: VoteId, question: bytes)
    | AskQuestion(voteId: VoteId, question: bytes)
    | CastVote(voteId: VoteId, response: u16)
    | AnnounceResult(voteId: VoteId, response: u16)

  function Encode(m: Msg): bytes {
    match m
    case Greet(f) => HelloBytes(Hello(HELLO_C2S, 0, Truncate16(|f|), f))
    case GreetBack(f) => HelloBytes(Hello(HELLO_BACK_S2C, 0, Truncate16(|f|), f))
    case RequestVote(v, q) => VoteRequestBytes(VoteRequest(VOTE_C2S_REQUEST_VOTE, v, Truncate32(|q|), q))
    case AskQuestion(v, q) => VoteRequestBytes(VoteRequest(VOTE_S2C_BROADCAST_QUESTION, v, Truncate32(|q|), q))
    case CastVote(v, r) => VoteResponseBytes(VoteResponse(VOTE_C2S_RESPONSE_TO_QUESTION, v, r))
    case AnnounceResult(v, r) => VoteResponseBytes(VoteResponse(VOTE_S2C_BROADCAST_RESULT, v, r))
  }

  /** A body over the size limit is dropped by every enqueue function. */
  predicate Fits(m: Msg) {
    |Encode(m)| <= MAX_PCKT_SIZE
  }

  /** `Body[:2]`: the slice is cut from an 8192-byte zeroed buffer, so a short body reads zeros. */
  function DataId(body: bytes): u16 {
    GetU16(body + [0, 0])
  }

  /** Which handler runs, with which arguments; None when the packet is discarded. */
  function Decode(body: bytes): Option<Msg> {
    var id := DataId(body);
    if id == HELLO_C2S || id == HELLO_BACK_S2C then
      match ParseHello(body)
      case Failure => None
      case Success(h) => Some(if id == HELLO_C2S then Greet(h.features) else GreetBack(h.features))
    else if id == VOTE_C2S_REQUEST_VOTE || id == VOTE_S2C_BROADCAST_QUESTION then
      match ParseVoteRequest(body)
      case Failure => None
      case Success(q) =>
        Some(if id == VOTE_C2S_REQUEST_VOTE then RequestVote(q.voteId, q.question)
             else AskQuestion(q.voteId, q.question))
    else if id == VOTE_C2S_RESPONSE_TO_QUESTION || id == VOTE_S2C_BROADCAST_RESULT then
      match ParseVoteResponse(body)
      case Failure => None
      case Success(v) =>
        Some(if id == VOTE_C2S_RESPONSE_TO_QUESTION then CastVote(v.voteId, v.response)
             else AnnounceResult(v.voteId, v.response))
    else None
  }

  lemma DataIdOf(x: u16, rest: bytes)
    ensures DataId(PutU16(x) + rest) == x
  {}

  lemma HelloDecodes(h: Hello)
    requires h.numFeatures == |h.features|
    requires h.dataId == HELLO_C2S || h.dataId == HELLO_BACK_S2C
    ensures Decode(HelloBytes(h)) == Some(if h.dataId == HELLO_C2S then Greet(h.features) else GreetBack(h.features))
  {
    DataIdOf(h.dataId, PutU32(h.version) + (PutU16(Truncate16(|h.features|)) + FeatureBytes(h.features)));
    HelloParses(HelloBytes(h), h);
  }

  lemma RequestDecodes(q: VoteRequest)
    requires q.questionLength == |q.question|
    requires q.dataId == VOTE_C2S_REQUEST_VOTE || q.dataId == VOTE_S2C_BROADCAST_QUESTION
    ensures Decode(VoteRequestBytes(q))
         == Some(if q.dataId == VOTE_C2S_REQUEST_VOTE then RequestVote(q.voteId, q.question)
                 else AskQuestion(q.voteId, q.question))
  {
    DataIdOf(q.dataId, q.voteId + (PutU32(Truncate32(|q.question|)) + q.question));
    VoteRequestParses(VoteRequestBytes(q), q);
  }

  lemma ResponseDecodes(v: VoteResponse)
    requires v.dataId == VOTE_C2S_RESPONSE_TO_QUESTION || v.dataId == VOTE_S2C_BROADCAST_RESULT
    ensures Decode(VoteResponseBytes(v))
         == Some(if v.dataId == VOTE_C2S_RESPONSE_TO_QUESTION then CastVote(v.voteId, v.response)
                 else AnnounceResult(v.voteId, v.response))
  {
    DataIdOf(v.dataId, v.voteId + PutU16(v.response));
    VoteResponseParses(VoteResponseBytes(v), v);
  }

  /** Every message that is queued at all is decoded to itself. */
  lemma DecodeEncode(m: Msg)
    requires Fits(m)
    ensures Decode(Encode(m)) == Some(m)
  {
    match m
    case Greet(f) => HelloDecodes(Hello(HELLO_C2S, 0, Truncate16(|f|), f));
    case GreetBack(f) => HelloDecodes(Hello(HELLO_BACK_S2C, 0, Truncate16(|f|), f));
    case RequestVote(v, q) => RequestDecodes(VoteRequest(VOTE_C2S_REQUEST_VOTE, v, Truncate32(|q|), q));
    case AskQuestion(v, q) => RequestDecodes(VoteRequest(VOTE_S2C_BROADCAST_QUESTION, v, Truncate32(|q|), q));
    case CastVote(v, r) => ResponseDecodes(VoteResponse(VOTE_C2S_RESPONSE_TO_QUESTION, v, r));
    case AnnounceResult(v, r) => ResponseDecodes(VoteResponse(VOTE_S2C_BROADCAST_RESULT, v, r));
  }

  /** Votes and results always fit; a question fits exactly when the request that brought it did. */
  lemma WhatFits(v: VoteId, q: bytes, r: u16)
    ensures Fits(CastVote(v, r)) && Fits(AnnounceResult(v, r))
    ensures Fits(RequestVote(v, q)) <==> |q| <= MAX_PCKT_SIZE - 22
    ensures Fits(AskQuestion(v, q)) <==> Fits(RequestVote(v, q))
  {}

  /** The bodies as the six enqueue functions serialize them. */
  method EncodeBody(m: Msg) returns (body: bytes)
    ensures body == Encode(m)
    ensures Fits(m) ==> Decode(body) == Some(m)
  {
    match m {
      case Greet(f) => body := SerializeHello(Hello(HELLO_C2S, 0, Truncate16(|f|), f));
      case GreetBack(f) => body := SerializeHello(Hello(HELLO_BACK_S2C, 0, Truncate16(|f|), f));
      case RequestVote(v, q) =>
        body := SerializeVoteRequest(VoteRequest(VOTE_C2S_REQUEST_VOTE, v, Truncate32(|q|), q));
      case AskQuestion(v, q) =>
        body := SerializeVoteRequest(VoteRequest(VOTE_S2C_BROADCAST_QUESTION, v, Truncate32(|q|), q));
      case CastVote(v, r) => body := SerializeVoteResponse(VoteResponse(VOTE_C2S_RESPONSE_TO_QUESTION, v, r));
      case AnnounceResult(v, r) => body := SerializeVoteResponse(VoteResponse(VOTE_S2C_BROADCAST_RESULT, v, r));
    }
    if Fits(m) {
      DecodeEncode(m);
    }
  }

  /** The switch of `incomingProcessor` on the data ID. */
  method DecodeBody(body: bytes) returns (m: Option<Msg>)
    ensures m == Decode(body)
    ensures forall x :: Fits(x) && body == Encode(x) ==> m == Some(x)
  {
    forall x | Fits(x) ensures Decode(Encode(x)) == Some(x) {
      DecodeEncode(x);
    }
    var id := DataId(body);
    if id == HELLO_C2S || id == HELLO_BACK_S2C {
      var hello := DeserializeHello(body);
      if hello.Failure? {
        return None;
      }
      return Some(if id == HELLO_C2S then Greet(hello.value.features) else GreetBack(hello.value.features));
    }
    if id == VOTE_C2S_REQUEST_VOTE || id == VOTE_S2C_BROADCAST_QUESTION {
      var request := DeserializeVoteRequest(body);
      if request.Failure? {
        return None;
      }
      var q := request.value;
      return Some(if id == VOTE_C2S_REQUEST_VOTE then RequestVote(q.voteId, q.question)
                  else AskQuestion(q.voteId, q.question));
    }
    if id == VOTE_C2S_RESPONSE_TO_QUESTION || id == VOTE_S2C_BROADCAST_RESULT {
      var response := DeserializeVoteResponse(body);
      if response.Failure? {
        return None;
      }
      var v := response.value;
      return Some(if id == VOTE_C2S_RESPONSE_TO_QUESTION then CastVote(v.voteId, v.response)
                  else AnnounceResult(v.voteId, v.response));
    }
    return None;
  }
}
