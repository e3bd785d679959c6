/** A link whose network carries frames, some of them damaged on the way. It refines the link of module Arq, whose
    network carries packets. */
module FrameLink {
  import opened Bytes
  import opened Wrappers
  import opened Packet
  import opened SlidingWindow
  import opened Arq
  import ArqTheorems
  import Crc32
  import Frame
  import Runs

  datatype FLink = FLink(a: Endpoint, b: Endpoint, ab: set<bytes>, ba: set<bytes>)

  /** `Own` is anything an endpoint does unasked; `Arrive` is the arrival of bytes, which may be damaged. */
  datatype FAction = Own(act: Action) | Arrive(raw: bytes, replySent: bool)

  /** The packet in a frame, without its checksum. */
  function Parsed(f: bytes): Pckt
    requires |f| >= HEADER_SIZE
  {
    var p := DeserializePacket(f).value;
    p.(header := p.header.(checksum := 0))
  }

  /** Damage the frame check is proved to find: within 32 consecutive bits behind byte 7, or to bytes 0 to 7 alone. */
  ghost predicate Damaged(f: bytes, raw: bytes) {
    && |raw| == |f| >= HEADER_SIZE && raw != f
    && ((raw[..8] == f[..8] && exists offset :: Crc32.BurstAt(f[8..], raw[8..], offset)) || raw[8..] == f[8..])
  }

  ghost predicate MayArrive(wire: set<bytes>, raw: bytes) {
    exists f | f in wire :: raw == f || Damaged(f, raw)
  }

  /** What the endpoint does about arriving bytes; nothing when they do not verify. */
  function Reaction(raw: bytes, replySent: bool): Option<Action> {
    if VerifyPacket(raw) != Success(true) then None
    else if Parsed(raw).header.kind == DATA then Some(ReceiveData(Parsed(raw), replySent))
    else Some(ReceiveControl(Parsed(raw), replySent))
  }

  predicate Unasked(act: Action) {
    !act.ReceiveData? && !act.ReceiveControl?
  }

  ghost predicate CanDo(l: FLink, act: FAction) {
    match act
    case Own(o) => Unasked(o) && Enabled(l.a, {}, o)
    case Arrive(raw, _) => MayArrive(l.ba, raw)
  }

  function Framed(ps: set<Pckt>): set<bytes> {
    set p | p in ps :: Frame.FrameOf(p)
  }

  function Perform(l: FLink, act: Action): FLink {
    l.(a := Act(l.a, act), ab := l.ab + Framed(Emits(l.a, act)))
  }

  function Do(l: FLink, act: FAction): FLink {
    match act
    case Own(o) => Perform(l, o)
    case Arrive(raw, replySent) =>
      match Reaction(raw, replySent)
      case None => l
      case Some(o) => Perform(l, o)
  }

  function Turn(l: FLink): FLink {
    FLink(l.b, l.a, l.ba, l.ab)
  }

  ghost predicate Init(l: FLink) {
    l == FLink(NewEndpoint(l.a.selfId), NewEndpoint(l.b.selfId), {}, {})
  }

  ghost predicate Next(l: FLink, l': FLink) {
    || (exists act :: CanDo(l, act) && l' == Do(l, act))
    || (exists act :: CanDo(Turn(l), act) && l' == Turn(Do(Turn(l), act)))
  }

  // ----- refinement -----

  function Packets(frames: set<bytes>): set<Pckt> {
    set f | f in frames && |f| >= HEADER_SIZE :: Parsed(f)
  }

  function Abs(l: FLink): Link {
    Link(l.a, l.b, Packets(l.ab), Packets(l.ba))
  }

  predicate Sound(p: Pckt) {
    p.header.magic == MAGIC_CONST && p.header.checksum == 0
  }

  ghost predicate SoundFrame(f: bytes) {
    exists p :: Sound(p) && f == Frame.FrameOf(p)
  }

  ghost predicate SoundFrames(frames: set<bytes>) {
    forall f | f in frames :: SoundFrame(f)
  }

  ghost predicate Refines(l: FLink) {
    Reachable(Abs(l)) && SoundFrames(l.ab) && SoundFrames(l.ba)
  }

  lemma ParsedFrame(p: Pckt)
    requires Sound(p)
    ensures VerifyPacket(Frame.FrameOf(p)) == Success(true) && Parsed(Frame.FrameOf(p)) == p
  {
    Frame.FrameRoundTrip(p);
  }

  lemma InPackets(wire: set<bytes>, f: bytes)
    requires f in wire && |f| >= HEADER_SIZE
    ensures Parsed(f) in Packets(wire)
  {}

  /** Damage never verifies. */
  lemma DamageNeverVerifies(f: bytes, raw: bytes)
    requires SoundFrame(f) && Damaged(f, raw)
    ensures VerifyPacket(raw) == Success(false)
  {
    var p :| Sound(p) && f == Frame.FrameOf(p);
    DamageRejected(p, raw);
  }

  /** So what verifies is a frame that was sent. */
  lemma ArrivedIsSent(wire: set<bytes>, raw: bytes)
    requires SoundFrames(wire) && MayArrive(wire, raw)
    ensures VerifyPacket(raw) == Success(true) ==> raw in wire
  {
    var f :| f in wire && (raw == f || Damaged(f, raw));
    if raw != f {
      DamageNeverVerifies(f, raw);
    }
  }

  lemma ReactionEnabled(x: Endpoint, wire: set<bytes>, raw: bytes, replySent: bool)
    requires SoundFrames(wire) && MayArrive(wire, raw)
    ensures Reaction(raw, replySent).Some? ==> Enabled(x, Packets(wire), Reaction(raw, replySent).value)
  {
    ArrivedIsSent(wire, raw);
    if raw in wire && |raw| >= HEADER_SIZE {
      InPackets(wire, raw);
    }
    Reacts(x, Packets(wire), raw, replySent);
  }

  lemma Reacts(x: Endpoint, ps: set<Pckt>, raw: bytes, replySent: bool)
    requires Reaction(raw, replySent).Some? ==> Parsed(raw) in ps
    ensures Reaction(raw, replySent).Some? ==> Enabled(x, ps, Reaction(raw, replySent).value)
  {}

  lemma DamageRejected(p: Pckt, raw: bytes)
    requires Sound(p) && Damaged(Frame.FrameOf(p), raw)
    ensures VerifyPacket(raw) == Success(false)
  {
    var f := Frame.FrameOf(p);
    if raw[8..] == f[8..] {
      assert raw == raw[..8] + raw[8..] && f == f[..8] + f[8..];
      Frame.PrefixDamageRejected(p, raw);
    } else {
      var offset :| Crc32.BurstAt(f[8..], raw[8..], offset);
      Frame.BurstRejected(p, raw, offset);
    }
  }

  lemma EmitsSound(x: Endpoint, act: Action, p: Pckt)
    requires SenderOk(x) && p in Emits(x, act)
    ensures Sound(p)
  {
    var s := x.sender;
    forall i: u32 | i in s.outgoing ensures Sound(s.outgoing[i].pckt) {
      assert EntryOk(x, i);
    }
  }

  lemma FramedPackets(ps: set<Pckt>)
    requires forall p | p in ps :: Sound(p)
    ensures Packets(Framed(ps)) == ps && SoundFrames(Framed(ps))
  {
    forall p | p in ps ensures Frame.FrameOf(p) in Framed(ps) && Parsed(Frame.FrameOf(p)) == p {
      ParsedFrame(p);
    }
  }

  lemma PacketsUnion(f: set<bytes>, g: set<bytes>)
    ensures Packets(f + g) == Packets(f) + Packets(g)
  {}

  lemma PerformAbove(l: FLink, act: Action)
    requires Packets(Framed(Emits(l.a, act))) == Emits(l.a, act)
    ensures Abs(Perform(l, act)) == ActA(Abs(l), act)
  {
    PacketsUnion(l.ab, Framed(Emits(l.a, act)));
  }

  lemma StepOfA(l: Link, act: Action)
    requires Enabled(l.a, l.ba, act)
    ensures Step(l, ActA(l, act)) && (Reachable(l) ==> Reachable(ActA(l, act)))
  {
    assert CanApply(l, A, act) && ActA(l, act) == Apply(l, A, act);
    if Reachable(l) {
      Runs.ReachableNext(Arq.Init, Step, l, ActA(l, act));
    }
  }

  /** One action below is the same action above. */
  lemma PerformRefines(l: FLink, act: Action)
    requires Refines(l) && Enabled(l.a, Packets(l.ba), act)
    ensures Refines(Perform(l, act)) && Step(Abs(l), Abs(Perform(l, act)))
  {
    SenderInOrder(l);
    forall p | p in Emits(l.a, act) ensures Sound(p) {
      EmitsSound(l.a, act, p);
    }
    FramedPackets(Emits(l.a, act));
    PerformAbove(l, act);
    StepOfA(Abs(l), act);
  }

  lemma SenderInOrder(l: FLink)
    requires Refines(l)
    ensures SenderOk(l.a)
  {
    ReachableInv(Abs(l));
  }

  lemma DoRefines(l: FLink, act: FAction)
    requires Refines(l) && CanDo(l, act)
    ensures Refines(Do(l, act)) && (Abs(Do(l, act)) == Abs(l) || Step(Abs(l), Abs(Do(l, act))))
  {
    match act {
      case Own(o) => PerformRefines(l, o);
      case Arrive(raw, replySent) =>
        ReactionEnabled(l.a, l.ba, raw, replySent);
        if Reaction(raw, replySent).Some? {
          PerformRefines(l, Reaction(raw, replySent).value);
        }
    }
  }

  lemma TurnRefines(l: FLink)
    requires Refines(l)
    ensures Refines(Turn(l)) && Abs(Turn(l)) == Flip(Abs(l))
  {
    ArqTheorems.ReachableFlip(Abs(l));
  }

  lemma NextRefines(l: FLink, l': FLink)
    requires Refines(l) && Next(l, l')
    ensures Refines(l')
  {
    if exists act :: CanDo(l, act) && l' == Do(l, act) {
      var act :| CanDo(l, act) && l' == Do(l, act);
      DoRefines(l, act);
    } else {
      var act :| CanDo(Turn(l), act) && l' == Turn(Do(Turn(l), act));
      TurnRefines(l);
      DoRefines(Turn(l), act);
      TurnRefines(Do(Turn(l), act));
    }
  }

  /** In every run in which frames are lost, duplicated, reordered and damaged in these ways, the endpoints are in a
      state that a network of packets could have brought them to, so every theorem about those holds. */
  lemma FramesRefinePackets(l: FLink)
    requires Runs.Reachable(Init, Next, l)
    ensures Reachable(Abs(l))
  {
    forall s | Init(s) ensures Refines(s) {
      assert Packets({}) == {};
      Runs.ReachesSelf(Step, Abs(s));
      assert Arq.Init(Abs(s));
    }
    forall s, t | Refines(s) && Next(s, t) ensures Refines(t) {
      NextRefines(s, t);
    }
    Runs.InvariantHolds(Init, Next, Refines, l);
  }

  // ----- the converse -----

  /** Some run over frames leads to what is `l` as seen from above. */
  ghost predicate Framable(l: Link) {
    exists f :: Runs.Reachable(Init, Next, f) && Refines(f) && Abs(f) == l
  }

  /** What an action above is below: the packet it takes in arrives in its own frame. */
  function Below(act: Action): FAction {
    match act
    case ReceiveData(p, ackSent) => Arrive(Frame.FrameOf(p), ackSent)
    case ReceiveControl(p, replySent) => Arrive(Frame.FrameOf(p), replySent)
    case _ => Own(act)
  }

  /** Every packet above came from its own frame. */
  lemma FrameOnWire(wire: set<bytes>, p: Pckt)
    requires SoundFrames(wire) && p in Packets(wire)
    ensures Sound(p) && Frame.FrameOf(p) in wire
  {
    var f :| f in wire && |f| >= HEADER_SIZE && Parsed(f) == p;
    var q :| Sound(q) && f == Frame.FrameOf(q);
    ParsedFrame(q);
  }

  lemma BelowDoes(f: FLink, act: Action)
    requires Refines(f) && Enabled(f.a, Packets(f.ba), act)
    ensures CanDo(f, Below(act)) && Do(f, Below(act)) == Perform(f, act)
  {
    if act.ReceiveData? {
      FrameOnWire(f.ba, act.p);
      ReactionTo(act.p, act.ackSent);
    } else if act.ReceiveControl? {
      FrameOnWire(f.ba, act.p);
      ReactionTo(act.p, act.replySent);
    }
  }

  lemma ReactionTo(p: Pckt, replySent: bool)
    requires Sound(p)
    ensures Reaction(Frame.FrameOf(p), replySent)
         == Some(if p.header.kind == DATA then ReceiveData(p, replySent) else ReceiveControl(p, replySent))
  {
    ParsedFrame(p);
  }

  lemma FollowA(f: FLink, act: Action) returns (g: FLink)
    requires Refines(f) && Enabled(f.a, Packets(f.ba), act)
    ensures Next(f, g) && Refines(g) && Abs(g) == ActA(Abs(f), act)
  {
    BelowDoes(f, act);
    PerformRefines(f, act);
    g := Perform(f, act);
    assert g == Do(f, Below(act));
    EmitsFramed(f, act);
    PerformAbove(f, act);
  }

  lemma EmitsFramed(f: FLink, act: Action)
    requires Refines(f)
    ensures Packets(Framed(Emits(f.a, act))) == Emits(f.a, act)
  {
    SenderInOrder(f);
    forall p | p in Emits(f.a, act) ensures Sound(p) {
      EmitsSound(f.a, act, p);
    }
    FramedPackets(Emits(f.a, act));
  }

  lemma TurnNext(f: FLink, g: FLink)
    requires Next(f, g)
    ensures Next(Turn(f), Turn(g))
  {
    assert Turn(Turn(f)) == f && Turn(Turn(g)) == g;
    if act :| CanDo(f, act) && g == Do(f, act) {
      assert CanDo(Turn(Turn(f)), act) && Turn(g) == Turn(Do(Turn(Turn(f)), act));
    } else {
      var act :| CanDo(Turn(f), act) && g == Turn(Do(Turn(f), act));
      assert Turn(g) == Do(Turn(f), act);
    }
  }

  lemma Follow(f: FLink, side: Side, act: Action) returns (g: FLink)
    requires Refines(f) && CanApply(Abs(f), side, act)
    ensures Next(f, g) && Refines(g) && Abs(g) == Apply(Abs(f), side, act)
  {
    if side == A {
      g := FollowA(f, act);
    } else {
      TurnRefines(f);
      var h := FollowA(Turn(f), act);
      TurnRefines(h);
      TurnNext(Turn(f), h);
      assert Turn(Turn(f)) == f;
      g := Turn(h);
    }
  }

  lemma FramableNext(l: Link, l': Link)
    requires Framable(l) && Step(l, l')
    ensures Framable(l')
  {
    var f :| Runs.Reachable(Init, Next, f) && Refines(f) && Abs(f) == l;
    var side, act :| CanApply(l, side, act) && l' == Apply(l, side, act);
    var g := Follow(f, side, act);
    Runs.ReachableNext(Init, Next, f, g);
  }

  lemma InitFramable(l: Link)
    requires Arq.Init(l)
    ensures Framable(l)
  {
    var f := FLink(l.a, l.b, {}, {});
    assert Init(f) && Abs(f) == l;
    Runs.ReachesSelf(Next, f);
    Runs.ReachesSelf(Step, l);
  }

  /** So endpoints reach exactly the same states over frames as over packets. */
  lemma SameLinks(l: Link)
    ensures Reachable(l) <==> exists f :: Runs.Reachable(Init, Next, f) && Abs(f) == l
  {
    if Reachable(l) {
      forall s | Arq.Init(s) ensures Framable(s) {
        InitFramable(s);
      }
      forall s, t | Framable(s) && Step(s, t) ensures Framable(t) {
        FramableNext(s, t);
      }
      Runs.InvariantHolds(Arq.Init, Step, Framable, l);
    }
    if f :| Runs.Reachable(Init, Next, f) && Abs(f) == l {
      FramesRefinePackets(f);
    }
  }
}
