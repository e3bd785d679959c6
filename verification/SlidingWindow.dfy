/** Selective-repeat sender and receiver of one conversation (udp/conversation.go). */
module SlidingWindow {
  import opened Bytes
  import opened Wrappers
  import opened Packet
  import opened Messages

  const WINDOW_SIZE: u32 := 5

  /** An entry of `outgoing`: the packet and its AckReceived flag. */
  datatype OutPckt = OutPckt(pckt: Pckt, ackReceived: bool)

  datatype Sender = Sender(outgoing: map<u32, OutPckt>, windowStart: u32, windowSize: u32, nextPcktNum: u32)

  datatype Receiver = Receiver(incoming: map<u32, Pckt>, lastPcktReceived: u32)

  function NewSender(): Sender {
    Sender(map[], 0, WINDOW_SIZE, 0)
  }

  function NewReceiver(): Receiver {
    Receiver(map[], 0)
  }

  function Control(kind: u16, selfId: u32, num: u32, seqNum: u32): Pckt {
    Pckt(PcktHeader(MAGIC_CONST, 0, selfId, num, seqNum, 1, kind), [])
  }

  function DataPckt(selfId: u32, num: u32, body: bytes): Pckt {
    Pckt(PcktHeader(MAGIC_CONST, 0, selfId, num, 0, 1, DATA), body)
  }

  /** What a node writes into a packet of its own, field by field. */
  predicate Stamped(p: Pckt, selfId: u32) {
    && p.header.magic == 0x0105_1117 && p.header.checksum == 0 && p.header.convId == selfId
    && p.header.isFinal == 1
  }

  predicate IsControl(p: Pckt, kind: u16, selfId: u32, num: u32, seqNum: u32) {
    && Stamped(p, selfId) && p.body == []
    && p.header.kind == kind && p.header.packetNum == num && p.header.sequenceNum == seqNum
  }

  predicate IsData(p: Pckt, selfId: u32, num: u32, body: bytes) {
    && Stamped(p, selfId) && p.body == body
    && p.header.kind == 0 && p.header.packetNum == num && p.header.sequenceNum == 0
  }

  // ----- the sender -----

  /** The window's upper bound as Go computes it, on uint32. */
  function WindowEnd(s: Sender): u32 {
    Add32(s.windowStart, s.windowSize)
  }

  predicate Acked(s: Sender, i: u32) {
    i in s.outgoing && s.outgoing[i].ackReceived
  }

  /** `j` ends the longest run of acknowledged packets that starts at the window start, within the window. */
  predicate EndsAckedRun(s: Sender, j: u32) {
    && s.windowStart <= j
    && (j <= WindowEnd(s) || j == s.windowStart)
    && (forall i: u32 | s.windowStart <= i < j :: Acked(s, i))
    && (j < WindowEnd(s) ==> !Acked(s, j))
  }

  /** Packet numbers are handed out without holes: 0 to nextPcktNum - 1, or all of them once they have wrapped. */
  ghost predicate Dense(s: Sender) {
    || (forall i: u32 :: i in s.outgoing <==> i < s.nextPcktNum)
    || (forall i: u32 :: i in s.outgoing)
  }

  function AckedRunEnd(s: Sender, i: u32): (j: u32)
    decreases TWO_TO_THE_32 - i
  {
    if i < WindowEnd(s) && Acked(s, i) then AckedRunEnd(s, i + 1) else i
  }

  function Slide(s: Sender): Sender {
    s.(windowStart := AckedRunEnd(s, s.windowStart))
  }

  lemma {:induction false} AckedRunEndEnds(s: Sender, i: u32)
    requires s.windowStart <= i && (i <= WindowEnd(s) || i == s.windowStart)
    requires forall k: u32 | s.windowStart <= k < i :: Acked(s, k)
    ensures EndsAckedRun(s, AckedRunEnd(s, i))
    decreases TWO_TO_THE_32 - i
  {
    if i < WindowEnd(s) && Acked(s, i) {
      AckedRunEndEnds(s, i + 1);
    }
  }

  /** The new window start is the one number that ends the acknowledged run. */
  lemma SlideMeaning(s: Sender, j: u32)
    ensures Slide(s).windowStart == j <==> EndsAckedRun(s, j)
  {
    AckedRunEndEnds(s, s.windowStart);
    if EndsAckedRun(s, j) {
      OneEnd(s, Slide(s).windowStart, j);
      OneEnd(s, j, Slide(s).windowStart);
    }
  }

  lemma OneEnd(s: Sender, j: u32, k: u32)
    requires EndsAckedRun(s, j) && EndsAckedRun(s, k)
    ensures j <= k
  {}

  /** Window packets that `sendWindowPackets` and `checkForRetransmissions` look at and find unacknowledged. */
  function WindowUnacked(s: Sender): (r: set<u32>) {
    set i: u32 | i in s.outgoing.Keys && s.windowStart <= i < WindowEnd(s) && !s.outgoing[i].ackReceived
  }

  function EnqueueStep(s: Sender, selfId: u32, body: bytes): Sender {
    if |body| > MAX_PCKT_SIZE then s
    else s.(outgoing := s.outgoing[s.nextPcktNum := OutPckt(DataPckt(selfId, s.nextPcktNum, body), false)],
            nextPcktNum := Add32(s.nextPcktNum, 1))
  }

  function AckStep(s: Sender, num: u32): Sender {
    if num in s.outgoing then s.(outgoing := s.outgoing[num := s.outgoing[num].(ackReceived := true)]) else s
  }

  /** The packet a NAK makes the sender put on the wire again, window or not. */
  function NakReply(s: Sender, num: u32): seq<Pckt> {
    if num in s.outgoing && !s.outgoing[num].ackReceived then [s.outgoing[num].pckt] else []
  }

  /** `sent` lists the packets numbered in `nums`, each once, in increasing order of number. */
  ghost predicate ListsInOrder(sent: seq<Pckt>, nums: set<u32>, s: Sender) {
    && (forall i | 0 <= i < |sent| :: sent[i].header.packetNum in nums && sent[i].header.packetNum in s.outgoing
                                   && sent[i] == s.outgoing[sent[i].header.packetNum].pckt)
    && (forall i, j | 0 <= i < j < |sent| :: sent[i].header.packetNum < sent[j].header.packetNum)
    && (forall n | n in nums :: exists i :: 0 <= i < |sent| && sent[i].header.packetNum == n)
  }

  ghost function Below(nums: set<u32>, i: int): set<u32> {
    set k | k in nums && k < i
  }

  /** Entry `i` carries packet number `i`. */
  ghost predicate Numbered(s: Sender) {
    forall i | i in s.outgoing :: s.outgoing[i].pckt.header.packetNum == i && s.outgoing[i].pckt.header.kind == DATA
  }

  lemma EnqueueKeepsDense(s: Sender, selfId: u32, body: bytes)
    requires Dense(s)
    ensures Dense(EnqueueStep(s, selfId, body))
  {}

  class SenderWindow {
    var outgoing: map<u32, OutPckt>
    var windowStart: u32
    var windowSize: u32
    var nextPcktNum: u32

    function State(): Sender
      reads this
    {
      Sender(outgoing, windowStart, windowSize, nextPcktNum)
    }

    ghost predicate Valid()
      reads this
    {
      Dense(State()) && Numbered(State())
    }

    constructor ()
      ensures State() == NewSender() && Valid()
      ensures outgoing == map[] && windowStart == 0 && windowSize == 5 && nextPcktNum == 0
    {
      outgoing := map[];
      windowStart := 0;
      windowSize := WINDOW_SIZE;
      nextPcktNum := 0;
    }

    /** What all six enqueue functions do once they have serialized their body. */
    method Enqueue(selfId: u32, body: bytes)
      requires Valid()
      modifies this
      ensures Valid()
      ensures State() == EnqueueStep(old(State()), selfId, body)
      ensures |body| > 250 ==> State() == old(State())
      ensures |body| <= 250 ==>
                && nextPcktNum == (old(nextPcktNum) + 1) % TWO_TO_THE_32
                && outgoing.Keys == old(outgoing).Keys + {old(nextPcktNum)}
                && (forall i | i in old(outgoing) && i != old(nextPcktNum) :: outgoing[i] == old(outgoing)[i])
                && !outgoing[old(nextPcktNum)].ackReceived
                && IsData(outgoing[old(nextPcktNum)].pckt, selfId, old(nextPcktNum), body)
    {
      var pckt := DataPckt(selfId, nextPcktNum, body);
      if |pckt.body| > MAX_PCKT_SIZE {
        return;
      }
      outgoing := outgoing[pckt.header.packetNum := OutPckt(pckt, false)];
      nextPcktNum := Add32(nextPcktNum, 1);
      EnqueueKeepsDense(old(State()), selfId, body);
    }

    method MoveWindow()
      requires Valid()
      modifies this`windowStart
      ensures Valid()
      ensures EndsAckedRun(old(State()), windowStart)
      ensures State() == Slide(old(State()))
    {
      var originalWindowStart := windowStart;
      var i := originalWindowStart;
      var end := Add32(originalWindowStart, windowSize);
      while i < end
        invariant originalWindowStart <= windowStart <= i
        invariant i <= end || i == originalWindowStart
        invariant forall k: u32 | originalWindowStart <= k < windowStart :: Acked(old(State()), k)
        invariant windowStart < i ==> windowStart !in outgoing
      {
        if i in outgoing {
          if outgoing[i].ackReceived {
            windowStart := windowStart + 1;
          } else {
            break;
          }
        }
        i := i + 1;
      }
      SlideMeaning(old(State()), windowStart);
    }

    /** Hands the packet to the socket; a DATA packet loses its AckReceived flag unless the write failed. */
    method SendPacket(num: u32) returns (sent: Pckt)
      requires num in outgoing && outgoing[num].pckt.header.kind == DATA
      modifies this`outgoing
      ensures sent == old(outgoing[num].pckt)
      ensures outgoing == old(outgoing) || outgoing == old(outgoing)[num := OutPckt(sent, false)]
    {
      sent := outgoing[num].pckt;
      var written: bool := *;
      if written {
        outgoing := outgoing[num := outgoing[num].(ackReceived := false)];
      }
    }

    method SendWindowPackets() returns (sent: seq<Pckt>)
      requires Valid()
      modifies this
      ensures Valid()
      ensures State() == Slide(old(State()))
      ensures ListsInOrder(sent, WindowUnacked(State()), State())
    {
      MoveWindow();
      sent := SendUnacked();
    }

    /** The loop of `sendWindowPackets`, which stops at the first number not handed out yet. */
    method SendUnacked() returns (sent: seq<Pckt>)
      requires Valid()
      modifies this`outgoing
      ensures Valid()
      ensures State() == old(State())
      ensures ListsInOrder(sent, WindowUnacked(State()), State())
    {
      ghost var s := State();
      var i := windowStart;
      var end := Add32(windowStart, windowSize);
      sent := [];
      while i < end
        invariant s.windowStart <= i
        invariant State() == s
        invariant ListsInOrder(sent, Below(WindowUnacked(s), i), s)
      {
        ListsNext(sent, WindowUnacked(s), s, i);
        if i in outgoing {
          if !outgoing[i].ackReceived {
            var p := SendPacket(i);
            assert outgoing == s.outgoing;
            sent := sent + [p];
          }
        } else {
          break;
        }
        i := i + 1;
      }
      assert i >= end || i !in s.outgoing;
      BelowAll(s, WindowUnacked(s), i);
    }

    /** `due` are the packets last sent more than a second ago. */
    method CheckForRetransmissions(due: set<u32>) returns (sent: seq<Pckt>)
      requires Valid()
      modifies this
      ensures Valid()
      ensures State() == old(State())
      ensures ListsInOrder(sent, WindowUnacked(State()) * due, State())
    {
      ghost var s, nums := State(), WindowUnacked(State()) * due;
      sent := [];
      if |outgoing| > 0 {
        var i := windowStart;
        var end := Add32(windowStart, windowSize);
        while i < end
          invariant s.windowStart <= i
          invariant State() == s
          invariant ListsInOrder(sent, Below(nums, i), s)
        {
          ListsNext(sent, nums, s, i);
          assert i in nums <==> i in outgoing && !outgoing[i].ackReceived && i in due;
          if i in outgoing && !outgoing[i].ackReceived && i in due {
            var p := SendPacket(i);
            assert outgoing == s.outgoing;
            sent := sent + [p];
          }
          i := i + 1;
        }
        BelowAll(s, nums, i);
      }
    }

    method HandleAck(num: u32)
      requires Valid()
      modifies this`outgoing
      ensures Valid()
      ensures State() == AckStep(old(State()), num)
      ensures forall i: u32 :: Acked(State(), i) <==> Acked(old(State()), i) || (i == num && i in old(outgoing))
    {
      if num !in outgoing {
        return;
      }
      outgoing := outgoing[num := outgoing[num].(ackReceived := true)];
    }

    method HandleNak(num: u32) returns (sent: seq<Pckt>)
      requires Valid()
      modifies this`outgoing
      ensures Valid()
      ensures State() == old(State()) && sent == NakReply(State(), num)
      ensures if num in outgoing && !outgoing[num].ackReceived then sent == [outgoing[num].pckt] else sent == []
    {
      if num !in outgoing {
        return [];
      }
      if outgoing[num].ackReceived {
        return [];
      }
      var p := SendPacket(num);
      assert outgoing == old(outgoing);
      return [p];
    }
  }

  lemma BelowAll(s: Sender, nums: set<u32>, i: u32)
    requires Dense(s) && nums <= WindowUnacked(s)
    requires i >= WindowEnd(s) || i !in s.outgoing
    ensures Below(nums, i) == nums
  {}

  lemma ListsOneMore(sent: seq<Pckt>, nums: set<u32>, s: Sender, i: u32)
    requires ListsInOrder(sent, nums, s) && Numbered(s)
    requires i in s.outgoing && forall k | k in nums :: k < i
    ensures ListsInOrder(sent + [s.outgoing[i].pckt], nums + {i}, s)
  {
    var more := sent + [s.outgoing[i].pckt];
    forall n | n in nums + {i} ensures exists k :: 0 <= k < |more| && more[k].header.packetNum == n {
      if n == i {
        assert more[|sent|].header.packetNum == n;
      } else {
        var k :| 0 <= k < |sent| && sent[k].header.packetNum == n;
        assert more[k].header.packetNum == n;
      }
    }
  }

  /** One turn of the loop. */
  lemma ListsNext(sent: seq<Pckt>, nums: set<u32>, s: Sender, i: u32)
    requires ListsInOrder(sent, Below(nums, i), s) && Numbered(s) && nums <= s.outgoing.Keys
    ensures ListsInOrder(if i in nums then sent + [s.outgoing[i].pckt] else sent, Below(nums, i + 1), s)
  {
    assert Below(nums, i + 1) == Below(nums, i) + (if i in nums then {i} else {});
    if i in nums {
      ListsOneMore(sent, Below(nums, i), s, i);
    } else {
      assert Below(nums, i + 1) == Below(nums, i);
    }
  }

  // ----- the receiver -----

  /** What happens to a DATA packet under the receiver's lock, after its ACK has gone out. */
  function BufferStep(r: Receiver, p: Pckt): Receiver {
    if p.header.isFinal == 0 || p.header.sequenceNum > 0 then r.(lastPcktReceived := p.header.packetNum)
    else if p.header.packetNum in r.incoming then r
    else r.(incoming := r.incoming[p.header.packetNum := p], lastPcktReceived := p.header.packetNum)
  }

  class ReceivingWindow {
    var incoming: map<u32, Pckt>
    var lastPcktReceived: u32

    function State(): Receiver
      reads this
    {
      Receiver(incoming, lastPcktReceived)
    }

    constructor ()
      ensures State() == NewReceiver()
      ensures incoming == map[] && lastPcktReceived == 0
    {
      incoming := map[];
      lastPcktReceived := 0;
    }

    /** The buffering half of the DATA branch. No gap is ever seen: `lastPcktReceived` has just been set. */
    method BufferData(selfId: u32, p: Pckt) returns (naks: seq<Pckt>)
      modifies this
      ensures State() == BufferStep(old(State()), p) && naks == []
      ensures forall i :: i in incoming <==>
                i in old(incoming) || (i == p.header.packetNum && p.header.isFinal != 0 && p.header.sequenceNum == 0)
      ensures forall i | i in incoming :: incoming[i] == if i in old(incoming) then old(incoming)[i] else p
      ensures lastPcktReceived
           == if p.header.isFinal != 0 && p.header.sequenceNum == 0 && p.header.packetNum in old(incoming)
              then old(lastPcktReceived) else p.header.packetNum
    {
      if p.header.isFinal == 0 || p.header.sequenceNum > 0 {
        lastPcktReceived := p.header.packetNum;
        return [];
      }
      if p.header.packetNum !in incoming {
        incoming := incoming[p.header.packetNum := p];
        lastPcktReceived := p.header.packetNum;
      } else {
        return [];
      }
      naks := CheckGap(selfId, p.header.packetNum);
    }

    /** The gap test on its own: a NAK for every number strictly between the last one received and `num`. */
    method CheckGap(selfId: u32, num: u32) returns (naks: seq<Pckt>)
      modifies this`lastPcktReceived
      ensures lastPcktReceived == if num > old(lastPcktReceived) then num else old(lastPcktReceived)
      ensures |naks| == if num > old(lastPcktReceived) then num - old(lastPcktReceived) - 1 else 0
      ensures forall k | 0 <= k < |naks| :: naks[k] == Control(NAK, selfId, old(lastPcktReceived) + 1 + k, 0)
    {
      naks := [];
      if num > lastPcktReceived {
        if num > Add32(lastPcktReceived, 1) {
          var i := Add32(lastPcktReceived, 1);
          while i < num
            invariant lastPcktReceived + 1 <= i <= num && |naks| == i - lastPcktReceived - 1
            invariant forall k | 0 <= k < |naks| :: naks[k] == Control(NAK, selfId, lastPcktReceived + 1 + k, 0)
          {
            naks := naks + [Control(NAK, selfId, i, 0)];
            i := i + 1;
          }
        }
        lastPcktReceived := num;
      }
    }

    /** Takes an arbitrary buffered packet, decodes it, and deletes it whatever the outcome. */
    method TakeIncoming() returns (taken: Option<Pckt>, m: Option<Msg>)
      modifies this`incoming
      ensures taken.None? <==> old(incoming) == map[]
      ensures taken.None? ==> incoming == old(incoming) && m == None
      ensures taken.Some? ==> exists num | num in old(incoming) ::
                taken.value == old(incoming)[num] && incoming == old(incoming) - {num} && m == Decode(taken.value.body)
    {
      if |incoming| > 0 {
        var num :| num in incoming;
        taken := Some(incoming[num]);
        m := DecodeBody(incoming[num].body);
        incoming := incoming - {num};
      } else {
        return None, None;
      }
    }
  }

  // ----- one conversation: both windows -----

  class Conversation {
    const selfId: u32
    const sender: SenderWindow
    const receiver: ReceivingWindow

    constructor (selfId: u32)
      ensures fresh(sender) && fresh(receiver) && this.selfId == selfId
      ensures sender.State() == NewSender() && sender.Valid() && receiver.State() == NewReceiver()
    {
      this.selfId := selfId;
      sender := new SenderWindow();
      receiver := new ReceivingWindow();
    }

    /** ARQ_Receive, every branch; `sent` is what goes back on the wire. */
    method ArqReceive(p: Pckt) returns (sent: seq<Pckt>)
      requires sender.Valid()
      modifies sender, receiver
      ensures sender.Valid()
      ensures sender.State()
           == if p.header.kind == ACK then AckStep(old(sender.State()), p.header.packetNum) else old(sender.State())
      ensures receiver.State()
           == if p.header.kind == DATA then BufferStep(old(receiver.State()), p) else old(receiver.State())
      ensures sent == Replies(old(sender.State()), selfId, p)
      ensures p.header.kind in {1, 4} ==> sent == []
      ensures p.header.kind == 2 ==> forall q | q in sent :: q.header.packetNum == p.header.packetNum
      ensures p.header.kind == 3 ==> |sent| == 1 && IsControl(sent[0], 4, selfId, 0, 0)
      ensures p.header.kind !in {1, 2, 3, 4} ==>
                |sent| == 1 && IsControl(sent[0], 1, selfId, p.header.packetNum, p.header.sequenceNum)
    {
      var ack := Control(ACK, selfId, p.header.packetNum, p.header.sequenceNum);
      if p.header.kind == DATA {
        var naks := receiver.BufferData(selfId, p);
        return [ack] + naks;
      } else if p.header.kind == ACK {
        sender.HandleAck(p.header.packetNum);
        return [];
      } else if p.header.kind == NAK {
        sent := sender.HandleNak(p.header.packetNum);
      } else if p.header.kind == SYN {
        return [Control(SYN_ACK, selfId, 0, 0)];
      } else if p.header.kind == SYN_ACK {
        return [];
      } else {
        return [ack];
      }
    }

    method Send(m: Msg)
      requires sender.Valid()
      modifies sender
      ensures sender.Valid()
      ensures sender.State() == EnqueueStep(old(sender.State()), selfId, Encode(m))
    {
      var body := EncodeBody(m);
      sender.Enqueue(selfId, body);
    }
  }

  /** What ARQ_Receive puts on the wire: an ACK for DATA and for unknown types, never a NAK. */
  function Replies(s: Sender, selfId: u32, p: Pckt): seq<Pckt> {
    if p.header.kind == DATA then [Control(ACK, selfId, p.header.packetNum, p.header.sequenceNum)]
    else if p.header.kind == ACK then []
    else if p.header.kind == NAK then NakReply(s, p.header.packetNum)
    else if p.header.kind == SYN then [Control(SYN_ACK, selfId, 0, 0)]
    else if p.header.kind == SYN_ACK then []
    else [Control(ACK, selfId, p.header.packetNum, p.header.sequenceNum)]
  }
}
