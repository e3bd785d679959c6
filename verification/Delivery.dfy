/** Bringing any queued packet to its receiver: what a link can always do, without queueing or processing anything. */
module Delivery {
  import opened Bytes
  import opened Packet
  import opened SlidingWindow
  import opened Arq
  import ArqTheorems
  import Runs

  /** A step of the ARQ itself, as opposed to its users. */
  ghost predicate NetStep(l: Link, l': Link) {
    exists side, act: Action :: !act.Queue? && !act.Process? && CanApply(l, side, act) && l' == Apply(l, side, act)
  }

  /** A run of such steps; it touches neither what has been queued nor what has been processed. */
  ghost predicate NetRun(l: Link, l': Link) {
    && Runs.Reaches(NetStep, l, l')
    && l'.a.queued == l.a.queued && l'.b.queued == l.b.queued
    && l'.a.processed == l.a.processed && l'.b.processed == l.b.processed
  }

  ghost predicate Moves(l: Link, l': Link) {
    NetRun(l, l') && Inv(l')
  }

  /** What the lemmas below leave alone besides: both receive buffers, b's sender and a's handlers. */
  ghost predicate Steady(l: Link, l': Link) {
    && l'.a.receiver == l.a.receiver && l'.b.receiver == l.b.receiver
    && l'.b.sender == l.b.sender && l'.a.pending == l.a.pending
  }

  lemma ActKeeps(x: Endpoint, act: Action)
    requires !act.Queue? && !act.Process?
    ensures Act(x, act).queued == x.queued && Act(x, act).processed == x.processed
  {}

  lemma OneStepKeeps(l: Link, side: Side, act: Action)
    requires !act.Queue? && !act.Process?
    ensures var l' := Apply(l, side, act);
      && l'.a.queued == l.a.queued && l'.b.queued == l.b.queued
      && l'.a.processed == l.a.processed && l'.b.processed == l.b.processed
  {
    ActKeeps(if side == A then l.a else l.b, act);
  }

  lemma OneStep(l: Link, side: Side, act: Action)
    requires CanApply(l, side, act) && !act.Queue? && !act.Process?
    ensures Runs.Reaches(NetStep, l, Apply(l, side, act))
  {
    assert NetStep(l, Apply(l, side, act));
    Runs.ReachesOne(NetStep, l, Apply(l, side, act));
  }

  lemma MoveOne(l: Link, side: Side, act: Action)
    requires Inv(l) && CanApply(l, side, act) && !act.Queue? && !act.Process?
    ensures Moves(l, Apply(l, side, act))
  {
    StepInv(l, side, act);
    OneStepKeeps(l, side, act);
    OneStep(l, side, act);
  }

  lemma MoveSelf(l: Link)
    requires Inv(l)
    ensures Moves(l, l)
  {
    Runs.ReachesSelf(NetStep, l);
  }

  lemma MoveOn(l: Link, m: Link, l': Link)
    requires Moves(l, m) && Moves(m, l')
    ensures Moves(l, l')
  {
    Runs.ReachesTransitive(NetStep, l, m, l');
  }

  /** The packet at position `j` of what the sender has queued. */
  function QueuedPckt(x: Endpoint, j: u32): Pckt
    requires j < |x.queued|
  {
    DataPckt(x.selfId, j, x.queued[j])
  }

  lemma SentOnce(l: Link, p: Pckt)
    requires Inv(l) && |l.a.queued| <= TWO_TO_THE_32 && p in l.ab && p.header.kind == DATA
    ensures p.header.packetNum < |l.a.queued| && p == QueuedPckt(l.a, p.header.packetNum)
  {
    assert WireOk(l.a, p);
    ArqTheorems.NumberIsPosition(l.a, p.header.packetNum, p.body);
  }

  lemma GotOnWire(l: Link, j: u32)
    requires Inv(l) && |l.a.queued| <= TWO_TO_THE_32 && Got(l.b, j)
    ensures j < |l.a.queued| && QueuedPckt(l.a, j) in l.ab
  {
    var p :| (p in l.b.accepted || p in l.b.pending) && p.header.packetNum == j;
    SentOnce(l, p);
  }

  lemma OutgoingIsQueued(x: Endpoint, j: u32)
    requires SenderOk(x) && j < |x.queued| <= TWO_TO_THE_32
    ensures j in x.sender.outgoing && x.sender.outgoing[j].pckt == QueuedPckt(x, j)
  {
    assert EntryOk(x, j);
    ArqTheorems.NumberIsPosition(x, j, x.sender.outgoing[j].pckt.body);
  }

  /** An unacknowledged window packet can be put on the wire. */
  lemma Resend(l: Link, j: u32) returns (l': Link)
    requires Inv(l) && j < |l.a.queued| <= TWO_TO_THE_32 - 5 && !Acked(l.a.sender, j)
    requires l.a.sender.windowStart <= j < l.a.sender.windowStart + WINDOW_SIZE
    ensures Moves(l, l') && Steady(l, l') && l'.a == l.a && l'.b == l.b && QueuedPckt(l.a, j) in l'.ab
  {
    OutgoingIsQueued(l.a, j);
    var act := Retransmit({j});
    assert CanApply(l, A, act);
    MoveOne(l, A, act);
    l' := Apply(l, A, act);
  }

  /** The receiver takes the packet and its ACK arrives. */
  lemma Confirm(l: Link, j: u32) returns (l': Link)
    requires Inv(l) && j < |l.a.queued| <= TWO_TO_THE_32 - 5 && QueuedPckt(l.a, j) in l.ab
    ensures Moves(l, l') && Steady(l, l') && l'.a == l.a.(sender := AckStep(l.a.sender, j))
  {
    var m := Receive(l, QueuedPckt(l.a, j));
    l' := Acknowledge(m, Control(ACK, l.b.selfId, j, 0));
    MoveOn(l, m, l');
  }

  lemma SlideOn(l: Link) returns (l': Link)
    requires Inv(l) && Acked(l.a.sender, l.a.sender.windowStart) && l.a.sender.windowStart <= TWO_TO_THE_32 - 6
    ensures Moves(l, l') && Steady(l, l') && l'.a.sender.windowStart > l.a.sender.windowStart
  {
    MoveOne(l, A, SendWindow({}));
    l' := Apply(l, A, SendWindow({}));
    SlideMeaning(l.a.sender, l'.a.sender.windowStart);
  }

  /** The window can be moved over its first packet. */
  lemma Advance(l: Link) returns (l': Link)
    requires Inv(l) && l.a.sender.windowStart < |l.a.queued| <= TWO_TO_THE_32 - 5
    ensures Moves(l, l') && Steady(l, l') && l'.a.sender.windowStart > l.a.sender.windowStart
  {
    var w := l.a.sender.windowStart;
    if Acked(l.a.sender, w) {
      l' := SlideOn(l);
    } else {
      OutgoingIsQueued(l.a, w);
      var l1 := Resend(l, w);
      var l2 := Confirm(l1, w);
      l' := SlideOn(l2);
      MoveOn(l, l1, l2);
      MoveOn(l, l2, l');
    }
  }

  /** Every queued packet can be brought onto the wire; while all fit into one window, without any other effect. */
  lemma {:induction false} OntoWire(l: Link, j: u32) returns (l': Link)
    requires Inv(l) && j < |l.a.queued| <= TWO_TO_THE_32 - 5
    ensures Moves(l, l') && Steady(l, l') && QueuedPckt(l'.a, j) in l'.ab
    ensures |l.a.queued| <= WINDOW_SIZE ==> l'.a == l.a && l'.b == l.b
    decreases if j < l.a.sender.windowStart then 0 else j + 1 - l.a.sender.windowStart
  {
    if j < l.a.sender.windowStart || Acked(l.a.sender, j) {
      GotOnWire(l, j);
      MoveSelf(l);
      l' := l;
    } else if j < l.a.sender.windowStart + WINDOW_SIZE {
      l' := Resend(l, j);
    } else {
      var m := Advance(l);
      l' := OntoWire(m, j);
      MoveOn(l, m, l');
    }
  }

  /** And from there into the receive buffer; into an empty one with its ACK delivered and no handler left over. */
  lemma Deliver(l: Link, j: u32) returns (l': Link)
    requires Inv(l) && j < |l.a.queued| <= TWO_TO_THE_32 - 5
    ensures Moves(l, l') && l'.a.receiver == l.a.receiver && l'.b.sender == l.b.sender && l'.a.pending == l.a.pending
    ensures j in l'.b.receiver.incoming && l'.b.receiver.incoming[j] == QueuedPckt(l'.a, j)
    ensures l.b.receiver.incoming == map[] ==> l'.b.receiver.incoming.Keys == {j}
    ensures l.b.receiver.incoming == map[] && |l.a.queued| <= WINDOW_SIZE ==>
              l'.a.sender == AckStep(l.a.sender, j) && l'.b.pending == l.b.pending
  {
    if j in l.b.receiver.incoming {
      MoveSelf(l);
      BufferedIsQueued(l, j);
      l' := l;
    } else {
      var m := OntoWire(l, j);
      l' := IntoBuffer(m, QueuedPckt(m.a, j));
      MoveOn(l, m, l');
    }
  }

  lemma BufferedIsQueued(l: Link, j: u32)
    requires Inv(l) && |l.a.queued| <= TWO_TO_THE_32 && j in l.b.receiver.incoming
    ensures j < |l.a.queued| && l.b.receiver.incoming[j] == QueuedPckt(l.a, j)
  {
    SentOnce(l, l.b.receiver.incoming[j]);
  }

  lemma IntoBuffer(l: Link, p: Pckt) returns (l': Link)
    requires Inv(l) && p in l.ab && p == DataPckt(l.a.selfId, p.header.packetNum, p.body)
    requires p.header.packetNum !in l.b.receiver.incoming
    ensures Moves(l, l') && l'.a == l.a.(sender := AckStep(l.a.sender, p.header.packetNum))
    ensures l'.b.sender == l.b.sender && l'.b.pending == l.b.pending
    ensures l'.b.receiver.incoming == l.b.receiver.incoming[p.header.packetNum := p]
  {
    var l1 := Receive(l, p);
    var l2 := Store(l1, p);
    l' := Acknowledge(l2, Control(ACK, l.b.selfId, p.header.packetNum, 0));
    MoveOn(l, l1, l2);
    MoveOn(l, l2, l');
    assert l.b.pending + multiset{p} - multiset{p} == l.b.pending;
  }

  lemma Receive(l: Link, p: Pckt) returns (l': Link)
    requires Inv(l) && p in l.ab && p.header.kind == DATA
    ensures Moves(l, l') && l'.a == l.a && l'.b == l.b.(pending := l.b.pending + multiset{p})
    ensures Control(ACK, l.b.selfId, p.header.packetNum, p.header.sequenceNum) in l'.ba
  {
    MoveOne(l, B, ReceiveData(p, true));
    l' := Apply(l, B, ReceiveData(p, true));
  }

  lemma Store(l: Link, p: Pckt) returns (l': Link)
    requires Inv(l) && p in l.b.pending && Accepts(l.b.receiver, p)
    ensures Moves(l, l') && l'.a == l.a && l'.ba == l.ba && l'.b.sender == l.b.sender
    ensures l'.b.pending == l.b.pending - multiset{p}
    ensures l'.b.receiver.incoming == l.b.receiver.incoming[p.header.packetNum := p]
  {
    MoveOne(l, B, Buffer(p));
    l' := Apply(l, B, Buffer(p));
  }

  lemma Acknowledge(l: Link, ack: Pckt) returns (l': Link)
    requires Inv(l) && ack in l.ba && ack.header.kind == ACK
    ensures Moves(l, l') && l'.b == l.b && l'.a == l.a.(sender := AckStep(l.a.sender, ack.header.packetNum))
  {
    MoveOne(l, A, ReceiveControl(ack, false));
    l' := Apply(l, A, ReceiveControl(ack, false));
  }

  // ----- the other direction -----

  lemma NetStepFlip(l: Link, l': Link)
    requires NetStep(l, l')
    ensures NetStep(Flip(l), Flip(l'))
  {
    var side, act: Action :| !act.Queue? && !act.Process? && CanApply(l, side, act) && l' == Apply(l, side, act);
    var other := if side == A then B else A;
    assert Flip(Flip(l)) == l && Flip(Flip(l')) == l';
    assert CanApply(Flip(l), other, act) && Flip(l') == Apply(Flip(l), other, act);
  }

  lemma NetRunFlip(l: Link, l': Link)
    requires NetRun(l, l')
    ensures NetRun(Flip(l), Flip(l'))
  {
    forall x, y | NetStep(x, y) ensures NetStep(Flip(x), Flip(y)) {
      NetStepFlip(x, y);
    }
    Runs.ReachesMapped(NetStep, NetStep, Flip, l, l');
  }
}
