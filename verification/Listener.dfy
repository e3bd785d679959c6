/** Incoming frames: verification, drawing conversation IDs, and dispatch to a conversation
    (udp/listener.go, generateConversationID in udp/global.go). */
module Listener {
  import opened Bytes
  import opened Wrappers
  import opened Packet
  import opened Frame
  import Crc32

  const PING_REQ: u16 := 0xFFFE
  const PING_RES: u16 := 0xFFFF

  datatype State = State(selfId: u32, conversations: set<u32>, generated: set<u32>)

  /** What the listener does with a frame besides updating its state. */
  datatype Outcome = Dropped | PingReply(id: u32) | ToConversation(convId: u32, p: Pckt)

  predicate IsFresh(generated: set<u32>, id: u32) {
    id != 0 && id !in generated
  }

  /** `newId` is the ID drawn if one is asked for. */
  function Listen(s: State, raw: bytes, newId: u32): (State, Outcome) {
    if VerifyPacket(raw) != Success(true) then (s, Dropped) else Dispatch(s, DeserializePacket(raw).value, newId)
  }

  function Dispatch(s: State, p: Pckt, newId: u32): (State, Outcome) {
    if p.header.kind == PING_REQ then (s.(generated := s.generated + {newId}), PingReply(newId))
    else if p.header.kind == PING_RES then (if s.selfId == 0 then s.(selfId := p.header.convId) else s, Dropped)
    else if s.selfId == 0 then (s, Dropped)
    else (s.(conversations := s.conversations + {p.header.convId}), ToConversation(p.header.convId, p))
  }

  /** What a ping is answered with. */
  function PingReplyPckt(id: u32): Pckt {
    Pckt(PcktHeader(MAGIC_CONST, 0, id, 0, 0, 1, PING_RES), [])
  }

  /** The frame is an intact ping; only then is an ID drawn. */
  predicate AsksForId(raw: bytes) {
    VerifyPacket(raw) == Success(true) && DeserializePacket(raw).value.header.kind == PING_REQ
  }

  class Node {
    var conversationIdSelf: u32
    var conversations: set<u32>
    var generatedConvIds: set<u32>

    function Current(): State
      reads this
    {
      State(conversationIdSelf, conversations, generatedConvIds)
    }

    /** Draws until a non-zero ID comes up that was never given out; `draws` are the random numbers to come. */
    method GenerateConversationId(draws: seq<u32>) returns (id: u32)
      requires exists d | d in draws :: IsFresh(generatedConvIds, d)
      modifies this`generatedConvIds
      ensures IsFresh(old(generatedConvIds), id) && id in draws
      ensures generatedConvIds == old(generatedConvIds) + {id}
    {
      id := 0;
      var seen := id in generatedConvIds;
      var i := 0;
      while id == 0 || seen
        invariant i <= |draws| && generatedConvIds == old(generatedConvIds)
        invariant seen <==> id in generatedConvIds
        invariant forall k | 0 <= k < i - 1 :: !IsFresh(generatedConvIds, draws[k])
        invariant if i == 0 then id == 0 else id == draws[i - 1]
        decreases |draws| - i
      {
        assert i < |draws| by {
          var d :| d in draws && IsFresh(generatedConvIds, d);
          var k :| 0 <= k < |draws| && draws[k] == d;
        }
        id := draws[i];
        seen := id in generatedConvIds;
        i := i + 1;
      }
      generatedConvIds := generatedConvIds + {id};
    }

    method HandleIncomingPacket(raw: bytes, draws: seq<u32>) returns (outcome: Outcome)
      requires AsksForId(raw) ==> exists d | d in draws :: IsFresh(generatedConvIds, d)
      modifies this
      ensures outcome.PingReply? ==> IsFresh(old(generatedConvIds), outcome.id)
      ensures (Current(), outcome) == Listen(old(Current()), raw, if outcome.PingReply? then outcome.id else 0)
    {
      if |raw| < HEADER_SIZE {
        return Dropped;
      }
      var verified := VerifyPacket(raw);
      if verified.Failure? || !verified.value {
        return Dropped;
      }
      outcome := DispatchPacket(DeserializePacket(raw).value, draws);
    }

    method DispatchPacket(packet: Pckt, draws: seq<u32>) returns (outcome: Outcome)
      requires packet.header.kind == PING_REQ ==> exists d | d in draws :: IsFresh(generatedConvIds, d)
      modifies this
      ensures outcome.PingReply? ==> IsFresh(old(generatedConvIds), outcome.id)
      ensures (Current(), outcome) == Dispatch(old(Current()), packet, if outcome.PingReply? then outcome.id else 0)
      ensures packet.header.kind == 0xFFFE ==>
                && outcome.PingReply? && generatedConvIds == old(generatedConvIds) + {outcome.id}
                && conversationIdSelf == old(conversationIdSelf) && conversations == old(conversations)
      ensures packet.header.kind == 0xFFFF ==>
                && outcome.Dropped? && generatedConvIds == old(generatedConvIds) && conversations == old(conversations)
                && conversationIdSelf
                == if old(conversationIdSelf) != 0 then old(conversationIdSelf) else packet.header.convId
      ensures packet.header.kind < 0xFFFE ==>
                && generatedConvIds == old(generatedConvIds) && conversationIdSelf == old(conversationIdSelf)
                && if conversationIdSelf == 0 then outcome.Dropped? && conversations == old(conversations)
                   else && outcome == ToConversation(packet.header.convId, packet)
                        && conversations == old(conversations) + {packet.header.convId}
    {
      if packet.header.kind == PING_REQ {
        var id := GenerateConversationId(draws);
        return PingReply(id);
      }
      if packet.header.kind == PING_RES {
        if conversationIdSelf == 0 {
          conversationIdSelf := packet.header.convId;
        }
        return Dropped;
      }
      if conversationIdSelf == 0 {
        return Dropped;
      }
      if packet.header.convId !in conversations {
        conversations := conversations + {packet.header.convId};
      }
      assert conversations == old(conversations) + {packet.header.convId};
      return ToConversation(packet.header.convId, packet);
    }
  }

  /** A frame hit by an error burst of at most 32 bits behind the checksum field changes nothing. */
  lemma DamagedFrameIgnored(s: State, p: Pckt, damaged: bytes, offset: nat, newId: u32)
    requires |damaged| == |FrameOf(p)| && damaged != FrameOf(p) && damaged[..8] == FrameOf(p)[..8]
    requires Crc32.BurstAt(FrameOf(p)[8..], damaged[8..], offset)
    ensures Listen(s, damaged, newId) == (s, Dropped)
  {
    BurstRejected(p, damaged, offset);
  }

  /** An undamaged frame of a conversation packet reaches the conversation of its sender as the packet that was sent. */
  lemma IntactFrameArrives(s: State, p: Pckt, newId: u32)
    requires p.header.magic == MAGIC_CONST && s.selfId != 0 && p.header.kind != PING_REQ && p.header.kind != PING_RES
    ensures Listen(s, FrameOf(p), newId)
         == (s.(conversations := s.conversations + {p.header.convId}), ToConversation(p.header.convId, WireCopy(p)))
    ensures WireCopy(p) == p.(header := p.header.(checksum := WireCopy(p).header.checksum))
  {
    FrameRoundTrip(p);
  }

  /** The frame of a ping reply gives its ID to a listener that has none, and changes nothing for any other. */
  lemma PingReplyArrives(s: State, id: u32, newId: u32)
    ensures Listen(s, FrameOf(PingReplyPckt(id)), newId) == (if s.selfId == 0 then s.(selfId := id) else s, Dropped)
  {
    FrameRoundTrip(PingReplyPckt(id));
  }
}
