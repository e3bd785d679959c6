/** Two endpoints running the ARQ over a network that loses, duplicates and reorders packets. */
module Arq {
  import opened Bytes
  import opened Packet
  import opened Messages
  import opened SlidingWindow
  import Runs

  /** One node's half of a conversation. `pending` holds the DATA handlers that have sent their ACK
      but not yet taken the receiver's lock; `queued`, `accepted` and `processed` record history. */
  datatype Endpoint = Endpoint(
    selfId: u32, sender: Sender, receiver: Receiver, pending: multiset<Pckt>,
    queued: seq<bytes>, accepted: set<Pckt>, processed: seq<Pckt>)

  /** A network is the set of packets ever put on it: any of them may arrive any number of times, or never. */
  datatype Link = Link(a: Endpoint, b: Endpoint, ab: set<Pckt>, ba: set<Pckt>)

  /** The atomic steps of an endpoint. The sets say which of the packets sent are not lost on the spot. */
  datatype Action =
    | Queue(body: bytes)
    | SendWindow(nums: set<u32>)
    | Retransmit(nums: set<u32>)
    | ReceiveData(p: Pckt, ackSent: bool)
    | Buffer(p: Pckt)
    | ReceiveControl(p: Pckt, replySent: bool)
    | SendSyn
    | Process(num: u32)

  datatype Side = A | B

  function NewEndpoint(selfId: u32): Endpoint {
    Endpoint(selfId, NewSender(), NewReceiver(), multiset{}, [], {}, [])
  }

  ghost predicate Init(l: Link) {
    l == Link(NewEndpoint(l.a.selfId), NewEndpoint(l.b.selfId), {}, {})
  }

  predicate Enabled(x: Endpoint, incoming: set<Pckt>, act: Action) {
    match act
    case Queue(_) => true
    case SendWindow(nums) => nums <= WindowUnacked(Slide(x.sender))
    case Retransmit(nums) => nums <= WindowUnacked(x.sender)
    case ReceiveData(p, _) => p in incoming && p.header.kind == DATA
    case Buffer(p) => p in x.pending
    case ReceiveControl(p, _) => p in incoming && p.header.kind != DATA
    case SendSyn => true
    case Process(num) => num in x.receiver.incoming
  }

  function PacketsAt(s: Sender, nums: set<u32>): set<Pckt> {
    set i | i in nums && i in s.outgoing :: s.outgoing[i].pckt
  }

  /** Whether buffering `p` puts it into `incoming`. */
  predicate Accepts(r: Receiver, p: Pckt) {
    p.header.isFinal != 0 && p.header.sequenceNum == 0 && p.header.packetNum !in r.incoming
  }

  function Act(x: Endpoint, act: Action): Endpoint {
    match act
    case Queue(body) =>
      x.(sender := EnqueueStep(x.sender, x.selfId, body),
         queued := if |body| > MAX_PCKT_SIZE then x.queued else x.queued + [body])
    case SendWindow(_) => x.(sender := Slide(x.sender))
    case Retransmit(_) => x
    case ReceiveData(p, _) => x.(pending := x.pending + multiset{p})
    case Buffer(p) =>
      x.(pending := x.pending - multiset{p}, receiver := BufferStep(x.receiver, p),
         accepted := if Accepts(x.receiver, p) then x.accepted + {p} else x.accepted)
    case ReceiveControl(p, _) =>
      if p.header.kind == ACK then x.(sender := AckStep(x.sender, p.header.packetNum)) else x
    case SendSyn => x
    case Process(num) =>
      if num in x.receiver.incoming then
        x.(receiver := x.receiver.(incoming := x.receiver.incoming - {num}),
           processed := x.processed + [x.receiver.incoming[num]])
      else x
  }

  /** What the action puts on the wire. */
  function Emits(x: Endpoint, act: Action): set<Pckt> {
    match act
    case SendWindow(nums) => PacketsAt(x.sender, nums)
    case Retransmit(nums) => PacketsAt(x.sender, nums)
    case ReceiveData(p, ackSent) => if ackSent then (set q | q in Replies(x.sender, x.selfId, p)) else {}
    case ReceiveControl(p, replySent) => if replySent then (set q | q in Replies(x.sender, x.selfId, p)) else {}
    case SendSyn => {Control(SYN, x.selfId, 0, 0)}
    case _ => {}
  }

  function Flip(l: Link): Link {
    Link(l.b, l.a, l.ba, l.ab)
  }

  function ActA(l: Link, act: Action): Link {
    l.(a := Act(l.a, act), ab := l.ab + Emits(l.a, act))
  }

  function Apply(l: Link, side: Side, act: Action): Link {
    if side == A then ActA(l, act) else Flip(ActA(Flip(l), act))
  }

  predicate CanApply(l: Link, side: Side, act: Action) {
    if side == A then Enabled(l.a, l.ba, act) else Enabled(l.b, l.ab, act)
  }

  ghost predicate Step(l: Link, l': Link) {
    exists side, act :: CanApply(l, side, act) && l' == Apply(l, side, act)
  }

  function Bodies(ps: seq<Pckt>): (r: seq<bytes>)
    ensures |r| == |ps|
  {
    seq(|ps|, i requires 0 <= i < |ps| => ps[i].body)
  }

  // ----- the invariant, for the direction from a to b -----

  /** Some body queued at a position that gets packet number `num` is `body`. */
  ghost predicate QueuedAs(x: Endpoint, num: u32, body: bytes) {
    exists j | 0 <= j < |x.queued| :: j % TWO_TO_THE_32 == num && x.queued[j] == body
  }

  /** The peer has taken packet `num` in: it is buffered history, or a handler for it is still running. */
  ghost predicate Got(y: Endpoint, num: u32) {
    exists p :: (p in y.accepted || p in y.pending) && p.header.packetNum == num
  }

  function Issued(x: Endpoint): nat {
    if |x.queued| < TWO_TO_THE_32 then |x.queued| else TWO_TO_THE_32
  }

  ghost predicate SenderOk(x: Endpoint) {
    && x.sender.windowSize == WINDOW_SIZE
    && x.sender.nextPcktNum == |x.queued| % TWO_TO_THE_32
    && x.sender.windowStart <= Issued(x)
    && (forall i: u32 :: i in x.sender.outgoing <==> i < Issued(x))
    && (forall i: u32 | i in x.sender.outgoing :: EntryOk(x, i))
  }

  ghost predicate EntryOk(x: Endpoint, i: u32)
    requires i in x.sender.outgoing
  {
    var p := x.sender.outgoing[i].pckt;
    p == DataPckt(x.selfId, i, p.body) && QueuedAs(x, i, p.body)
  }

  ghost predicate WireOk(x: Endpoint, p: Pckt) {
    if p.header.kind == DATA then
      && p == DataPckt(x.selfId, p.header.packetNum, p.body)
      && p.header.packetNum < x.sender.windowStart + x.sender.windowSize
      && QueuedAs(x, p.header.packetNum, p.body)
    else
      p.header.kind == ACK || p.header.kind == SYN || p.header.kind == SYN_ACK
  }

  ghost predicate ReceiverOk(y: Endpoint, wire: set<Pckt>) {
    && (forall p | p in y.accepted || p in y.pending :: p in wire && p.header.kind == DATA)
    && (forall i | i in y.receiver.incoming ::
          y.receiver.incoming[i] in y.accepted && y.receiver.incoming[i].header.packetNum == i)
    && (forall p | p in y.processed :: p in y.accepted)
  }

  ghost predicate AcksOk(x: Endpoint, y: Endpoint, back: set<Pckt>) {
    && (forall p | p in back && p.header.kind == ACK :: Got(y, p.header.packetNum))
    && (forall i: u32 | Acked(x.sender, i) :: Got(y, i))
    && (forall i: u32 | i < x.sender.windowStart :: Got(y, i))
  }

  ghost predicate Forward(l: Link) {
    && SenderOk(l.a)
    && (forall p | p in l.ab :: WireOk(l.a, p))
    && ReceiverOk(l.b, l.ab)
    && AcksOk(l.a, l.b, l.ba)
  }

  ghost predicate Inv(l: Link) {
    Forward(l) && Forward(Flip(l))
  }

  lemma InitInv(l: Link)
    requires Init(l)
    ensures Inv(l)
  {}

  lemma QueuedAsStays(x: Endpoint, x': Endpoint, num: u32, b: bytes)
    requires QueuedAs(x, num, b) && x.queued <= x'.queued
    ensures QueuedAs(x', num, b)
  {
    var j :| 0 <= j < |x.queued| && j % TWO_TO_THE_32 == num && x.queued[j] == b;
    assert x'.queued[j] == b;
  }

  lemma EntryStays(x: Endpoint, x': Endpoint, i: u32)
    requires i in x.sender.outgoing && EntryOk(x, i) && x'.selfId == x.selfId && x.queued <= x'.queued
    requires i in x'.sender.outgoing && x'.sender.outgoing[i] == x.sender.outgoing[i]
    ensures EntryOk(x', i)
  {
    QueuedAsStays(x, x', i, x.sender.outgoing[i].pckt.body);
  }

  lemma QueueKeeps(x: Endpoint, body: bytes)
    requires SenderOk(x)
    ensures SenderOk(Act(x, Queue(body)))
    ensures forall i: u32 | Acked(Act(x, Queue(body)).sender, i) :: Acked(x.sender, i)
    ensures forall num, b | QueuedAs(x, num, b) :: QueuedAs(Act(x, Queue(body)), num, b)
  {
    var x', n := Act(x, Queue(body)), |x.queued|;
    forall num, b | QueuedAs(x, num, b) ensures QueuedAs(x', num, b) {
      QueuedAsStays(x, x', num, b);
    }
    if |body| <= MAX_PCKT_SIZE {
      assert x'.queued[n] == body;
      assert QueuedAs(x', x.sender.nextPcktNum, body);
      forall i: u32 | i in x'.sender.outgoing ensures EntryOk(x', i) {
        if i != x.sender.nextPcktNum {
          EntryStays(x, x', i);
        }
      }
    }
  }

  lemma SlideKeeps(x: Endpoint)
    requires SenderOk(x)
    ensures SenderOk(x.(sender := Slide(x.sender)))
    ensures forall i: u32 | x.sender.windowStart <= i < Slide(x.sender).windowStart :: Acked(x.sender, i)
    ensures x.sender.windowStart <= Slide(x.sender).windowStart
  {
    var e := Slide(x.sender).windowStart;
    SlideMeaning(x.sender, e);
    if e > x.sender.windowStart {
      assert Acked(x.sender, e - 1);
    }
    forall i: u32 | i in x.sender.outgoing ensures EntryOk(x.(sender := Slide(x.sender)), i) {
      assert EntryOk(x, i);
    }
  }

  /** What an action may do to the sending half of its endpoint, whatever the action. */
  ghost predicate SenderEvolves(x: Endpoint, x': Endpoint) {
    && x'.selfId == x.selfId
    && x'.sender.windowSize == x.sender.windowSize && x.sender.windowStart <= x'.sender.windowStart
    && (forall i: u32 | x.sender.windowStart <= i < x'.sender.windowStart :: Acked(x.sender, i))
    && (forall num, b | QueuedAs(x, num, b) :: QueuedAs(x', num, b))
  }

  lemma SenderSteps(x: Endpoint, incoming: set<Pckt>, act: Action)
    requires SenderOk(x) && Enabled(x, incoming, act)
    ensures SenderOk(Act(x, act)) && SenderEvolves(x, Act(x, act))
  {
    var x' := Act(x, act);
    match act {
      case Queue(body) => QueueKeeps(x, body);
      case SendWindow(_) => SlideKeeps(x);
      case _ =>
    }
    forall i: u32 | i in x'.sender.outgoing ensures EntryOk(x', i) {
      if !act.Queue? {
        assert EntryOk(x, i);
      }
    }
    forall num, b | QueuedAs(x, num, b) && !act.Queue? ensures QueuedAs(x', num, b) {
      assert x'.queued == x.queued;
    }
  }

  /** Only an acknowledgement acknowledges. */
  lemma NewlyAcked(x: Endpoint, act: Action, i: u32)
    requires SenderOk(x) && Acked(Act(x, act).sender, i)
    ensures Acked(x.sender, i) || (act.ReceiveControl? && act.p.header.kind == ACK && act.p.header.packetNum == i)
  {}

  lemma EmitsOk(x: Endpoint, incoming: set<Pckt>, act: Action, p: Pckt)
    requires SenderOk(x) && Enabled(x, incoming, act) && p in Emits(x, act)
    requires forall q | q in incoming && q.header.kind != DATA ::
               q.header.kind == ACK || q.header.kind == SYN || q.header.kind == SYN_ACK
    ensures WireOk(Act(x, act), p)
    ensures p.header.kind == ACK ==> act.ReceiveData? && p.header.packetNum == act.p.header.packetNum
  {}

  lemma WireStays(x: Endpoint, x': Endpoint, p: Pckt)
    requires SenderEvolves(x, x') && WireOk(x, p)
    ensures WireOk(x', p)
  {}

  /** An action of the sending side keeps the forward direction. */
  lemma SendingSide(l: Link, act: Action)
    requires Inv(l) && Enabled(l.a, l.ba, act)
    ensures Forward(ActA(l, act))
  {
    var x, x', l' := l.a, Act(l.a, act), ActA(l, act);
    SenderSteps(x, l.ba, act);
    forall p | p in l'.ab ensures WireOk(x', p) {
      if p in Emits(x, act) {
        forall q | q in l.ba ensures WireOk(l.b, q) {
          assert q in Flip(l).ab;
        }
        EmitsOk(x, l.ba, act, p);
      } else {
        WireStays(x, x', p);
      }
    }
    forall i: u32 | Acked(x'.sender, i) ensures Got(l.b, i) {
      NewlyAcked(x, act, i);
    }
  }

  lemma ReceiverSteps(y: Endpoint, wire: set<Pckt>, act: Action)
    requires ReceiverOk(y, wire) && Enabled(y, wire, act)
    ensures ReceiverOk(Act(y, act), wire)
  {}

  /** Nothing taken in is ever lost: a handler that ends leaves its packet, or one with its number, accepted. */
  lemma GotStays(y: Endpoint, x: Endpoint, wire: set<Pckt>, act: Action, n: u32)
    requires ReceiverOk(y, wire) && Got(y, n)
    requires forall p | p in wire :: WireOk(x, p)
    ensures Got(Act(y, act), n)
  {}

  /** An action of the receiving side keeps the forward direction too. */
  lemma ReceivingSide(l: Link, act: Action)
    requires Inv(l) && Enabled(l.a, l.ba, act)
    ensures Forward(Flip(ActA(l, act)))
  {
    var y, y', l' := l.a, Act(l.a, act), ActA(l, act);
    forall p | p in l.ba ensures WireOk(l.b, p) {
      assert p in Flip(l).ab;
    }
    ReceiverSteps(y, l.ba, act);
    forall n: u32 | Got(y, n) ensures Got(y', n) {
      GotStays(y, l.b, l.ba, act, n);
    }
    forall p | p in l'.ab && p.header.kind == ACK ensures Got(y', p.header.packetNum) {
      if p in Emits(y, act) {
        EmitsOk(y, l.ba, act, p);
        assert act.p in y'.pending;
      } else {
        assert p in Flip(l).ba;
      }
    }
    forall i: u32 | Acked(l.b.sender, i) || i < l.b.sender.windowStart ensures Got(y', i) {
      assert Got(y, i);
    }
  }

  lemma StepInv(l: Link, side: Side, act: Action)
    requires Inv(l) && CanApply(l, side, act)
    ensures Inv(Apply(l, side, act))
  {
    if side == A {
      SendingSide(l, act);
      ReceivingSide(l, act);
    } else {
      assert Flip(Flip(l)) == l;
      SendingSide(Flip(l), act);
      ReceivingSide(Flip(l), act);
      assert Flip(Flip(ActA(Flip(l), act))) == ActA(Flip(l), act);
    }
  }

  lemma StepKeeps(l: Link, l': Link)
    requires Inv(l) && Step(l, l')
    ensures Inv(l')
  {
    var side, act :| CanApply(l, side, act) && l' == Apply(l, side, act);
    StepInv(l, side, act);
  }

  ghost predicate Reachable(l: Link) {
    Runs.Reachable(Init, Step, l)
  }

  /** The invariant holds in every state of every run. */
  lemma ReachableInv(l: Link)
    requires Reachable(l)
    ensures Inv(l)
  {
    forall s | Init(s) ensures Inv(s) {
      InitInv(s);
    }
    forall s, t | Inv(s) && Step(s, t) ensures Inv(t) {
      StepKeeps(s, t);
    }
    Runs.InvariantHolds(Init, Step, Inv, l);
  }

  /** So the numbering that the sender's methods rely on is there whenever they are called. */
  lemma ReachableNumbering(l: Link)
    requires Reachable(l)
    ensures Dense(l.a.sender) && Numbered(l.a.sender) && Dense(l.b.sender) && Numbered(l.b.sender)
  {
    ReachableInv(l);
    NumberingOk(l.a);
    NumberingOk(l.b);
  }

  lemma NumberingOk(x: Endpoint)
    requires SenderOk(x)
    ensures Dense(x.sender) && Numbered(x.sender)
  {
    forall i: u32 | i in x.sender.outgoing
      ensures x.sender.outgoing[i].pckt == DataPckt(x.selfId, i, x.sender.outgoing[i].pckt.body)
    {
      assert EntryOk(x, i);
    }
  }
}
