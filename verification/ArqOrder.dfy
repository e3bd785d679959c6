/** In which order packets are processed: exactly when in the order they were queued. */
module ArqOrder {
  import opened Bytes
  import opened Packet
  import opened Messages
  import opened SlidingWindow
  import opened Arq
  import Delivery
  import Runs

  /** The numbers of the processed packets never decrease. */
  ghost predicate InOrder(y: Endpoint) {
    forall i, j | 0 <= i < j < |y.processed| :: y.processed[i].header.packetNum <= y.processed[j].header.packetNum
  }

  /** The arbitrary key that was picked is below a number that has been processed. */
  ghost predicate PicksLate(y: Endpoint, act: Action) {
    act.Process? && exists p | p in y.processed :: p.header.packetNum > act.num
  }

  /** A step keeps the order if and only if it does not process a number below one that has been processed. */
  lemma StepInOrderExactly(y: Endpoint, wire: set<Pckt>, act: Action)
    requires ReceiverOk(y, wire) && Enabled(y, wire, act) && InOrder(y)
    ensures InOrder(Act(y, act)) <==> !PicksLate(y, act)
  {
    if act.Process? {
      ProcessOrder(y, y.receiver.incoming[act.num], Act(y, act));
    }
  }

  lemma ProcessOrder(y: Endpoint, q: Pckt, y': Endpoint)
    requires InOrder(y) && y'.processed == y.processed + [q]
    ensures InOrder(y') <==> forall p | p in y.processed :: p.header.packetNum <= q.header.packetNum
  {
    var k := |y.processed|;
    assert forall i | 0 <= i < k :: y'.processed[i] == y.processed[i];
    assert y'.processed[k] == q;
  }

  lemma OnlyNumberZero(l: Link)
    requires Reachable(l) && |l.a.queued| <= 1
    ensures InOrder(l.b)
  {
    ReachableInv(l);
    forall p | p in l.b.processed ensures p.header.packetNum == 0 {
      Delivery.SentOnce(l, p);
    }
  }

  // ----- a run out of order -----

  lemma NetStepIsStep(l: Link, l': Link)
    requires Delivery.NetStep(l, l')
    ensures Step(l, l')
  {}

  lemma NetRunReaches(l: Link, l': Link)
    requires Delivery.NetRun(l, l') && Reachable(l)
    ensures Reachable(l')
  {
    var same := (x: Link) => x;
    forall x, y | Delivery.NetStep(x, y) ensures Step(same(x), same(y)) {
      NetStepIsStep(x, y);
    }
    Runs.ReachesMapped(Delivery.NetStep, Step, same, l, l');
    Runs.ReachableMore(Init, Step, l, l');
  }

  lemma QueueOne(l: Link, body: bytes) returns (l': Link)
    requires Reachable(l) && |body| <= MAX_PCKT_SIZE
    ensures Reachable(l') && l'.a.queued == l.a.queued + [body] && l'.b == l.b && l'.a.selfId == l.a.selfId
  {
    l' := Apply(l, A, Queue(body));
    assert CanApply(l, A, Queue(body));
    Runs.ReachableNext(Init, Step, l, l');
  }

  /** Packet `j` is brought to b and processed. */
  lemma TakeIn(l: Link, j: u32) returns (l': Link)
    requires Reachable(l) && j < |l.a.queued| <= 2 && l.b.receiver.incoming == map[]
    ensures Reachable(l') && l'.a.queued == l.a.queued && l'.b.receiver.incoming == map[]
    ensures exists p :: l'.b.processed == l.b.processed + [p] && p.header.packetNum == j && p.body == l.a.queued[j]
  {
    ReachableInv(l);
    var m := Delivery.Deliver(l, j);
    NetRunReaches(l, m);
    l' := Apply(m, B, Process(j));
    assert CanApply(m, B, Process(j));
    Runs.ReachableNext(Init, Step, m, l');
    assert l'.b.processed == l.b.processed + [Delivery.QueuedPckt(m.a, j)];
  }

  /** Any two messages that fit can be queued in one order and processed in the other. */
  lemma ProcessedInReverse(first: Msg, second: Msg) returns (l: Link)
    requires Fits(first) && Fits(second)
    ensures Reachable(l) && l.a.queued == [Encode(first), Encode(second)]
    ensures Bodies(l.b.processed) == [Encode(second), Encode(first)] && !InOrder(l.b)
  {
    var l0 := Link(NewEndpoint(1), NewEndpoint(2), {}, {});
    assert Init(l0);
    Runs.ReachesSelf(Step, l0);
    var l1 := QueueOne(l0, Encode(first));
    var l2 := QueueOne(l1, Encode(second));
    var l3 := TakeIn(l2, 1);
    l := TakeIn(l3, 0);
    assert l.b.processed[0].header.packetNum > l.b.processed[1].header.packetNum;
  }

  /** Processing in order is guaranteed for up to `n` packets exactly when n <= 1. */
  lemma OrderExactly(n: nat)
    ensures (forall l | Reachable(l) && |l.a.queued| <= n :: InOrder(l.b)) <==> n <= 1
  {
    if n <= 1 {
      forall l | Reachable(l) && |l.a.queued| <= n ensures InOrder(l.b) {
        OnlyNumberZero(l);
      }
    } else {
      var v: bytes := seq(16, _ => 0);
      WhatFits(v, [], 0);
      var l := ProcessedInReverse(CastVote(v, 0), CastVote(v, 0));
      assert !InOrder(l.b);
    }
  }
}
