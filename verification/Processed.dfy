/** In every state of the deployed system each queued or processed body is a message, so positions of packets and of
    messages are the same. */
module Processed {
  import opened Bytes
  import opened Wrappers
  import opened Packet
  import opened Messages
  import opened Deployment
  import Arq
  import ArqTheorems
  import Runs

  predicate AllDecode(bodies: seq<bytes>) {
    forall b | b in bodies :: Decode(b).Some?
  }

  lemma LogLast(bodies: seq<bytes>)
    requires bodies != [] && Decode(bodies[|bodies| - 1]).Some?
    ensures Log(bodies) == Log(bodies[..|bodies| - 1]) + [Decode(bodies[|bodies| - 1]).value]
  {}

  /** Then the log has one message for each body, in the same place. */
  lemma {:induction false} LogAligned(bodies: seq<bytes>, i: nat)
    requires AllDecode(bodies)
    ensures |Log(bodies)| == |bodies|
    ensures i < |bodies| ==> Decode(bodies[i]) == Some(Log(bodies)[i])
    decreases |bodies|
  {
    if bodies != [] {
      var before := bodies[..|bodies| - 1];
      assert forall b | b in before :: b in bodies;
      LogAligned(before, i);
      LogLast(bodies);
    }
  }

  ghost predicate LinkDecodes(l: Arq.Link) {
    AllDecode(l.a.queued) && AllDecode(l.b.queued)
  }

  ghost predicate AllLinksDecode(n: Net) {
    forall c | c in n.links :: LinkDecodes(n.links[c])
  }

  lemma QueueDecodes(l: Arq.Link, side: Arq.Side, m: Msg)
    requires LinkDecodes(l)
    ensures LinkDecodes(QueueOn(l, side, m))
  {
    if Fits(m) {
      DecodeEncode(m);
    }
  }

  lemma MovesDecode(l: Arq.Link, l': Arq.Link)
    requires LinkDecodes(l) && LinkMoves(l, l')
    ensures LinkDecodes(l')
  {
    var m :| AtMostOneAct(l, m) && AtMostOneQueued(m, l');
    ActDecodes(l, m);
    if l' != m {
      var side, x :| l' == QueueOn(m, side, x);
      QueueDecodes(m, side, x);
    }
  }

  lemma ActDecodes(l: Arq.Link, m: Arq.Link)
    requires LinkDecodes(l) && AtMostOneAct(l, m)
    ensures LinkDecodes(m)
  {
    if m != l {
      var side, act: Arq.Action :| !act.Queue? && Arq.CanApply(l, side, act) && m == Arq.Apply(l, side, act);
      OtherLogs(l, side, act);
    }
  }

  lemma DecodesNext(n: Net, n': Net)
    requires AllLinksDecode(n) && Next(n, n')
    ensures AllLinksDecode(n')
  {
    var act :| Enabled(n, act) && n' == Apply(n, act);
    forall c | c in n'.links ensures LinkDecodes(n'.links[c]) {
      LinkStep(n, act, c);
      MovesDecode(n.links[c], n'.links[c]);
    }
  }

  lemma ReachableDecodes(n: Net)
    requires Reachable(n)
    ensures AllLinksDecode(n)
  {
    forall x | Init(x) ensures AllLinksDecode(x) {}
    forall x, y | AllLinksDecode(x) && Next(x, y) ensures AllLinksDecode(y) {
      DecodesNext(x, y);
    }
    Runs.InvariantHolds(Init, Next, AllLinksDecode, n);
  }

  /** So the logs seen from above are as long as the queues. */
  lemma QueueLengths(n: Net, c: u32)
    requires Reachable(n) && c in n.links
    ensures |n.links[c].a.queued| == |Abs(n).up[c]| && |n.links[c].b.queued| == |Abs(n).down[c]|
  {
    ReachableDecodes(n);
    assert LinkDecodes(n.links[c]);
    LogAligned(n.links[c].a.queued, 0);
    LogAligned(n.links[c].b.queued, 0);
  }

  lemma ProcessedQueued(l: Arq.Link)
    requires Arq.Inv(l)
    ensures forall p | p in l.b.processed :: p.body in l.a.queued
  {
    forall p | p in l.b.processed ensures p.body in l.a.queued {
      assert Arq.WireOk(l.a, p);
    }
  }

  /** What each side has processed, packet by packet, is what the histories list. */
  lemma ProcessedAligned(n: Net, c: u32)
    requires Reachable(n) && c in n.links
    ensures AllDecode(Arq.Bodies(n.links[c].a.processed)) && AllDecode(Arq.Bodies(n.links[c].b.processed))
  {
    ReachableDecodes(n);
    DeploymentRefinesConsensus(n);
    ProcessedQueued(n.links[c]);
    ProcessedQueued(Arq.Flip(n.links[c]));
    assert LinkDecodes(n.links[c]);
  }

  /** The message that packet `p` holds. */
  function Held(p: Pckt): Option<Msg> {
    Decode(p.body)
  }

  lemma ToldAt(n: Net, c: u32, i: nat)
    requires Reachable(n) && c in n.links
    ensures c in Abs(n).told && |Abs(n).told[c]| == |n.links[c].a.processed|
    ensures i < |n.links[c].a.processed| ==> Held(n.links[c].a.processed[i]) == Some(Abs(n).told[c][i])
  {
    ProcessedAligned(n, c);
    LogAligned(Arq.Bodies(n.links[c].a.processed), i);
  }

  lemma HeardAt(n: Net, c: u32, i: nat)
    requires Reachable(n) && c in n.links
    ensures c in Abs(n).heard && |Abs(n).heard[c]| == |n.links[c].b.processed|
    ensures i < |n.links[c].b.processed| ==> Held(n.links[c].b.processed[i]) == Some(Abs(n).heard[c][i])
  {
    ProcessedAligned(n, c);
    LogAligned(Arq.Bodies(n.links[c].b.processed), i);
  }

  lemma LinkOk(n: Net, c: u32)
    requires Reachable(n) && c in n.links
    ensures Arq.Inv(n.links[c]) && LinkDecodes(n.links[c])
  {
    DeploymentRefinesConsensus(n);
    ReachableDecodes(n);
  }

  /** Each processed packet sits in the peer's queue, at the position that is its number. */
  lemma ProcessedAtNumber(l: Arq.Link, k: nat)
    requires Arq.Inv(l) && |l.b.queued| <= TWO_TO_THE_32 && k < |l.a.processed|
    ensures var p := l.a.processed[k]; p.header.packetNum < |l.b.queued| && p.body == l.b.queued[p.header.packetNum]
  {
    var p := l.a.processed[k];
    assert p in l.a.processed;
    assert Arq.WireOk(l.b, p);
    ArqTheorems.NumberIsPosition(l.b, p.header.packetNum, p.body);
  }

  lemma HeardAtNumber(n: Net, c: u32, i: nat)
    requires Reachable(n) && c in n.links && |n.links[c].a.queued| <= TWO_TO_THE_32 && i < |n.links[c].b.processed|
    ensures var p := n.links[c].b.processed[i];
      p.header.packetNum < |n.links[c].a.queued| && p.body == n.links[c].a.queued[p.header.packetNum]
  {
    LinkOk(n, c);
    ProcessedAtNumber(Arq.Flip(n.links[c]), i);
  }
}
