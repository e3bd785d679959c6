/** Who a packet comes from: every packet a node puts on the wire carries the node's own ID, and this is how it finds
    its conversation at the other end. */
module Addressing {
  import opened Bytes
  import opened Packet
  import opened SlidingWindow
  import opened Arq
  import opened Wrappers
  import Deployment
  import Frame
  import FrameLink
  import Listener
  import Messages
  import Runs
  import WireFormat

  /** All packets kept for sending, and all on the wire, carry the ID of their sender. */
  ghost predicate SideStamped(x: Endpoint, wire: set<Pckt>) {
    && (forall i | i in x.sender.outgoing ::
          Stamped(x.sender.outgoing[i].pckt, x.selfId) && x.sender.outgoing[i].pckt.header.kind == 0)
    && (forall p | p in wire :: Stamped(p, x.selfId) && p.header.kind in {0, 1, 3, 4})
  }

  ghost predicate LinkStamped(l: Link) {
    SideStamped(l.a, l.ab) && SideStamped(l.b, l.ba)
  }

  lemma ActStamped(x: Endpoint, wire: set<Pckt>, act: Action)
    requires SideStamped(x, wire)
    ensures SideStamped(Act(x, act), wire + Emits(x, act)) && Act(x, act).selfId == x.selfId
  {}

  lemma StepStamped(l: Link, side: Side, act: Action)
    requires LinkStamped(l)
    ensures LinkStamped(Apply(l, side, act))
    ensures Apply(l, side, act).a.selfId == l.a.selfId && Apply(l, side, act).b.selfId == l.b.selfId
  {
    if side == A {
      ActStamped(l.a, l.ab, act);
    } else {
      ActStamped(l.b, l.ba, act);
    }
  }

  lemma ReachableStamped(l: Link)
    requires Reachable(l)
    ensures LinkStamped(l)
  {
    forall s, t | LinkStamped(s) && Step(s, t) ensures LinkStamped(t) {
      var side, act :| CanApply(s, side, act) && t == Apply(s, side, act);
      StepStamped(s, side, act);
    }
    Runs.InvariantHolds(Init, Step, LinkStamped, l);
  }

  /** In every run each packet on the wire carries the magic number, its sender's ID and one of the four types in
      use. */
  lemma SentHeaders(l: Link, p: Pckt)
    requires Reachable(l) && (p in l.ab || p in l.ba)
    ensures p.header.magic == 0x0105_1117 && p.header.isFinal == 1 && p.header.kind in {0, 1, 3, 4}
    ensures p in l.ab ==> p.header.convId == l.a.selfId
    ensures p in l.ba ==> p.header.convId == l.b.selfId
  {
    ReachableStamped(l);
  }

  /** The same of the bytes of its frame. */
  lemma SentBytes(l: Link, p: Pckt)
    requires Reachable(l) && p in l.ab
    ensures Frame.FrameOf(p)[0..4] == [1, 5, 17, 23]
    ensures WireFormat.BigEndian(Frame.FrameOf(p)[8..12]) == l.a.selfId
  {
    SentHeaders(l, p);
    Frame.FrameRoundTrip(p);
    WireFormat.VerifiesExactly(Frame.FrameOf(p));
    WireFormat.FrameLayout(p);
  }

  /** The frame of whatever a node puts on the wire reaches the conversation with that node's ID, which is there from
      then on. */
  lemma SentFrameArrives(l: Link, p: Pckt, s: Listener.State, newId: u32)
    requires Reachable(l) && p in l.ab && s.selfId != 0
    ensures Listener.Listen(s, Frame.FrameOf(p), newId)
         == (s.(conversations := s.conversations + {l.a.selfId}),
             Listener.ToConversation(l.a.selfId, Frame.WireCopy(p)))
  {
    SentHeaders(l, p);
    Listener.IntactFrameArrives(s, p, newId);
  }

  /** The link over frames reacts to bytes as the listener does: it acts exactly on what is handed to a conversation,
      and on that packet. */
  lemma ReactionIsListening(s: Listener.State, raw: bytes, replySent: bool, newId: u32)
    requires s.selfId != 0
    ensures var outcome := Listener.Listen(s, raw, newId).1;
      && (outcome.ToConversation? <==>
            FrameLink.Reaction(raw, replySent).Some? && FrameLink.Parsed(raw).header.kind < 0xFFFE)
      && (outcome.ToConversation? ==>
            && FrameLink.Parsed(raw) == outcome.p.(header := outcome.p.header.(checksum := 0))
            && FrameLink.Reaction(raw, replySent)
            == Some(if outcome.p.header.kind == 0 then ReceiveData(FrameLink.Parsed(raw), replySent)
                    else ReceiveControl(FrameLink.Parsed(raw), replySent)))
  {}

  // ----- in the deployed system -----

  ghost predicate LinksNamed(n: Deployment.Net) {
    forall c | c in n.links ::
      LinkStamped(n.links[c]) && n.links[c].a.selfId == c && n.links[c].b.selfId == n.serverId
  }

  lemma MovesStamped(l: Link, l': Link)
    requires LinkStamped(l) && Deployment.LinkMoves(l, l')
    ensures LinkStamped(l') && l'.a.selfId == l.a.selfId && l'.b.selfId == l.b.selfId
  {
    var m :| Deployment.AtMostOneAct(l, m) && Deployment.AtMostOneQueued(m, l');
    if m != l {
      var side, act: Action :| !act.Queue? && CanApply(l, side, act) && m == Apply(l, side, act);
      StepStamped(l, side, act);
    }
    if l' != m {
      var side, x :| l' == Deployment.QueueOn(m, side, x);
      StepStamped(m, side, Queue(Messages.Encode(x)));
    }
  }

  lemma LinksNamedNext(n: Deployment.Net, n': Deployment.Net)
    requires LinksNamed(n) && Deployment.Next(n, n')
    ensures LinksNamed(n')
  {
    var act :| Deployment.Enabled(n, act) && n' == Deployment.Apply(n, act);
    SameServer(n, act);
    forall c | c in n'.links
      ensures LinkStamped(n'.links[c]) && n'.links[c].a.selfId == c && n'.links[c].b.selfId == n'.serverId
    {
      Deployment.LinkStep(n, act, c);
      MovesStamped(n.links[c], n'.links[c]);
    }
  }

  lemma SameServer(n: Deployment.Net, act: Deployment.Action)
    requires Deployment.Enabled(n, act)
    ensures Deployment.Apply(n, act).serverId == n.serverId
  {}

  lemma InitNamed(n: Deployment.Net)
    requires Deployment.Init(n)
    ensures LinksNamed(n)
  {
    forall c | c in n.links ensures LinkStamped(n.links[c]) {
      assert Init(n.links[c]);
    }
  }

  lemma ReachableNamed(n: Deployment.Net)
    requires Deployment.Reachable(n)
    ensures LinksNamed(n)
  {
    forall x | Deployment.Init(x) ensures LinksNamed(x) {
      InitNamed(x);
    }
    forall x, y | LinksNamed(x) && Deployment.Next(x, y) ensures LinksNamed(y) {
      LinksNamedNext(x, y);
    }
    Runs.InvariantHolds(Deployment.Init, Deployment.Next, LinksNamed, n);
  }

  /** In every run of the deployed system each packet of client `c` reaches the server's conversation `c`, and each
      packet of the server reaches the client's conversation with the server. */
  lemma PacketsFindTheirWay(n: Deployment.Net, c: u32, p: Pckt, s: Listener.State, newId: u32)
    requires Deployment.Reachable(n) && c in n.links && s.selfId != 0
    ensures p in n.links[c].ab ==>
              Listener.Listen(s, Frame.FrameOf(p), newId).1 == Listener.ToConversation(c, Frame.WireCopy(p))
    ensures p in n.links[c].ba ==>
              Listener.Listen(s, Frame.FrameOf(p), newId).1 == Listener.ToConversation(n.serverId, Frame.WireCopy(p))
  {
    ReachableNamed(n);
    if p in n.links[c].ab || p in n.links[c].ba {
      assert Stamped(p, p.header.convId);
      Listener.IntactFrameArrives(s, p, newId);
    }
  }

  // ----- a sign of life -----

  /** From every state a node can ask for a sign of life and be answered: its SYN reaches the other end, and the
      SYN_ACK goes on the wire. */
  lemma SynIsAnswered(l: Link) returns (l': Link)
    requires Reachable(l)
    ensures Runs.Reaches(Step, l, l') && l'.a == l.a && l'.b == l.b
    ensures exists p | p in l'.ab :: IsControl(p, 3, l.a.selfId, 0, 0)
    ensures exists q | q in l'.ba :: IsControl(q, 4, l.b.selfId, 0, 0)
  {
    var syn := Control(SYN, l.a.selfId, 0, 0);
    var m := Apply(l, A, SendSyn);
    assert CanApply(l, A, SendSyn) && syn in m.ab;
    Runs.ReachesOne(Step, l, m);
    l' := Apply(m, B, ReceiveControl(syn, true));
    assert CanApply(m, B, ReceiveControl(syn, true));
    Runs.ReachesMore(Step, l, m, l');
    var answer := Control(SYN_ACK, l.b.selfId, 0, 0);
    assert answer in Replies(m.b.sender, m.b.selfId, syn);
    assert IsControl(syn, 3, l.a.selfId, 0, 0) && syn in l'.ab;
    assert IsControl(answer, 4, l.b.selfId, 0, 0) && answer in l'.ba;
  }
}
