/** What every handler does under which locks: why no goroutines can deadlock, and which of them can race. */
module Locks {
  import opened Bytes
  import Runs

  datatype Lock =
    | Incoming(conv: u32)
    | HostReferendums
    | ClientReferendums
    | Conversations
    | HostReferendum(id: nat)
    | ClientReferendum(id: nat)
    | Outgoing(conv: u32)
    | GeneratedConvIds

  function Rank(l: Lock): nat {
    match l
    case Incoming(_) => 0
    case HostReferendums => 1
    case ClientReferendums => 1
    case Conversations => 2
    case HostReferendum(_) => 3
    case ClientReferendum(_) => 3
    case Outgoing(_) => 4
    case GeneratedConvIds => 5
  }

  /** The shared state that some lock guards. */
  datatype Region =
    | IncomingOf(conv: u32)
    | HostMap
    | ClientMap
    | ConversationsMap
    | HostState(id: nat)
    | ClientState(id: nat)
    | OutgoingOf(conv: u32)
    | GeneratedIds

  /** What a hosted referendum holds is read without its own lock when its question is queued
      (udp/vote_manager.go:135); the lock on the map of hosted referendums is held there too. */
  function Guard(r: Region): Lock {
    match r
    case IncomingOf(c) => Incoming(c)
    case HostMap => HostReferendums
    case ClientMap => ClientReferendums
    case ConversationsMap => Conversations
    case HostState(_) => HostReferendums
    case ClientState(id) => ClientReferendum(id)
    case OutgoingOf(c) => Outgoing(c)
    case GeneratedIds => GeneratedConvIds
  }

  /** What `incomingProcessor` runs for the packet it took; a referendum that does not exist is not locked. */
  datatype Body =
    | Ignored
    | Hello
    | CreateReferendum(id: nat, participants: seq<u32>)
    | NewQuestion(id: nat, known: bool)
    | Response(id: nat, found: bool, participants: seq<u32>)
    | Result(id: nat, found: bool)

  /** Everything that uses that state, once. */
  datatype Handler =
    | SendHello(conv: u32)
    | IncomingProcessor(conv: u32, body: Body)
    | SendWindowPackets(conv: u32)
    | CheckForRetransmissions(conv: u32)
    | UserRequest(conv: u32)
    | PacketOfData(conv: u32)
    | PacketOfAckOrNak(conv: u32)
    | PacketOfOtherKind(conv: u32)
    | PingRequest
    | Cleaner

  /** The user's commands and the cleaner range over the conversations without taking their lock. */
  predicate Unlocked(h: Handler) {
    h.UserRequest? || h.Cleaner?
  }

  // ----- what each handler touches, read off the fields that its method reads or writes -----

  predicate HostBody(b: Body) {
    b.CreateReferendum? || b.Response?
  }

  predicate ClientBody(b: Body) {
    b.NewQuestion? || b.Result?
  }

  /** The body queues a message on conversation `c`. */
  predicate QueuesOn(conv: u32, b: Body, c: u32) {
    match b
    case Hello => c == conv
    case NewQuestion(_, known) => c == conv && !known
    case CreateReferendum(_, ps) => c in ps
    case Response(_, found, ps) => found && c in ps
    case _ => false
  }

  predicate Touches(h: Handler, r: Region) {
    match r
    case IncomingOf(c) => h == PacketOfData(c) || (h.IncomingProcessor? && h.conv == c)
    case HostMap => h.IncomingProcessor? && HostBody(h.body)
    case ClientMap => h.IncomingProcessor? && ClientBody(h.body)
    case ConversationsMap =>
      || h.PacketOfData? || h.PacketOfAckOrNak? || h.PacketOfOtherKind? || h.UserRequest? || h.Cleaner?
      || (h.IncomingProcessor? && h.body.CreateReferendum?)
    case HostState(id) =>
      && h.IncomingProcessor? && HostBody(h.body) && h.body.id == id
      && (h.body.Response? ==> h.body.found)
    case ClientState(id) =>
      && h.IncomingProcessor? && ClientBody(h.body) && h.body.id == id
      && (if h.body.NewQuestion? then !h.body.known else h.body.found)
    case OutgoingOf(c) =>
      || h == SendHello(c) || h == SendWindowPackets(c) || h == CheckForRetransmissions(c)
      || h == UserRequest(c) || h == PacketOfAckOrNak(c)
      || (h.IncomingProcessor? && QueuesOn(h.conv, h.body, c))
    case GeneratedIds => h.PingRequest?
  }

  /** The locks a handler has to take for that. */
  predicate Needs(h: Handler, l: Lock) {
    match l
    case Incoming(c) => Touches(h, IncomingOf(c))
    case HostReferendums => Touches(h, HostMap)
    case ClientReferendums => Touches(h, ClientMap)
    case Conversations => Touches(h, ConversationsMap) && !Unlocked(h)
    case HostReferendum(id) => Touches(h, HostState(id))
    case ClientReferendum(id) => Touches(h, ClientState(id))
    case Outgoing(c) => Touches(h, OutgoingOf(c))
    case GeneratedConvIds => Touches(h, GeneratedIds)
  }

  // ----- what each handler does -----

  /** Code in which every lock is released where the block that took it ends. */
  datatype Code =
    | Skip
    | Use(region: Region, writes: bool)
    | Then(first: Code, second: Code)
    | Locked(lock: Lock, body: Code)

  function Brief(r: Region): Code {
    Locked(Guard(r), Use(r, true))
  }

  /** One enqueue per participant. */
  function QueueForAll(participants: seq<u32>): Code {
    if participants == [] then Skip else Then(Brief(OutgoingOf(participants[0])), QueueForAll(participants[1..]))
  }

  /** `copyConversationsMap` */
  function Snapshot(id: nat): Code {
    Locked(Conversations, Locked(HostReferendum(id), Then(Use(ConversationsMap, false), Use(HostState(id), true))))
  }

  function Creating(id: nat, participants: seq<u32>): Code {
    Locked(HostReferendums, Then(Use(HostMap, true), Then(Snapshot(id),
      Then(Use(HostState(id), false), QueueForAll(participants)))))
  }

  function Answering(conv: u32, id: nat, known: bool): Code {
    Locked(ClientReferendums, Then(Use(ClientMap, true),
      if known then Skip
      else Locked(ClientReferendum(id), Then(Use(ClientState(id), true), Brief(OutgoingOf(conv))))))
  }

  function Counting(id: nat, found: bool, participants: seq<u32>): Code {
    Locked(HostReferendums, Then(Use(HostMap, false),
      if !found then Skip
      else Locked(HostReferendum(id), Then(Use(HostState(id), true), QueueForAll(participants)))))
  }

  function Completing(id: nat, found: bool): Code {
    Locked(ClientReferendums, Then(Use(ClientMap, false), if found then Brief(ClientState(id)) else Skip))
  }

  function BodyCode(conv: u32, b: Body): Code {
    match b
    case Ignored => Skip
    case Hello => Brief(OutgoingOf(conv))
    case CreateReferendum(id, ps) => Creating(id, ps)
    case NewQuestion(id, known) => Answering(conv, id, known)
    case Response(id, found, ps) => Counting(id, found, ps)
    case Result(id, found) => Completing(id, found)
  }

  /** The packet is deleted from `incoming` when its body is done. */
  function Processing(c: u32, body: Code): Code {
    Locked(Incoming(c), Then(Use(IncomingOf(c), false), Then(body, Use(IncomingOf(c), true))))
  }

  /** A packet finds its conversation, or starts it. */
  function Arriving(rest: Code): Code {
    Then(Brief(ConversationsMap), rest)
  }

  function CodeOf(h: Handler): Code {
    match h
    case SendHello(c) => Brief(OutgoingOf(c))
    case IncomingProcessor(c, b) => Processing(c, BodyCode(c, b))
    case SendWindowPackets(c) => Brief(OutgoingOf(c))
    case CheckForRetransmissions(c) => Brief(OutgoingOf(c))
    case UserRequest(c) => Then(Use(ConversationsMap, false), Brief(OutgoingOf(c)))
    case PacketOfData(c) => Arriving(Brief(IncomingOf(c)))
    case PacketOfAckOrNak(c) => Arriving(Brief(OutgoingOf(c)))
    case PacketOfOtherKind(_) => Arriving(Skip)
    case PingRequest => Brief(GeneratedIds)
    case Cleaner => Use(ConversationsMap, false)
  }

  // ----- nothing is forgotten -----

  function Accesses(c: Code): set<Region> {
    match c
    case Skip => {}
    case Use(r, _) => {r}
    case Then(a, b) => Accesses(a) + Accesses(b)
    case Locked(_, b) => Accesses(b)
  }

  /** How often the code takes lock `l`. */
  function Takes(c: Code, l: Lock): nat {
    match c
    case Skip => 0
    case Use(_, _) => 0
    case Then(a, b) => Takes(a, l) + Takes(b, l)
    case Locked(k, b) => (if k == l then 1 else 0) + Takes(b, l)
  }

  lemma {:induction false} QueueForAllDoes(ps: seq<u32>, r: Region, l: Lock)
    ensures r in Accesses(QueueForAll(ps)) <==> r.OutgoingOf? && r.conv in ps
    ensures Takes(QueueForAll(ps), l) == if l.Outgoing? then multiset(ps)[l.conv] else 0
  {
    if ps != [] {
      assert ps == [ps[0]] + ps[1..];
      QueueForAllDoes(ps[1..], r, l);
      BriefDoes(OutgoingOf(ps[0]), r, l);
    }
  }

  /** One level of code. */
  lemma {:induction false} Outermost(c: Code, r: Region, l: Lock)
    ensures c.Skip? ==> r !in Accesses(c) && Takes(c, l) == 0
    ensures c.Use? ==> (r in Accesses(c) <==> r == c.region) && Takes(c, l) == 0
    ensures c.Then? ==> (r in Accesses(c) <==> r in Accesses(c.first) || r in Accesses(c.second))
    ensures c.Then? ==> Takes(c, l) == Takes(c.first, l) + Takes(c.second, l)
    ensures c.Locked? ==> (r in Accesses(c) <==> r in Accesses(c.body))
    ensures c.Locked? ==> Takes(c, l) == (if l == c.lock then 1 else 0) + Takes(c.body, l)
  {}

  lemma BriefDoes(q: Region, r: Region, l: Lock)
    ensures r in Accesses(Brief(q)) <==> r == q
    ensures Takes(Brief(q), l) == if l == Guard(q) then 1 else 0
  {
    Outermost(Brief(q), r, l);
    Outermost(Use(q, true), r, l);
  }

  lemma SnapshotDoes(id: nat, r: Region, l: Lock)
    ensures r in Accesses(Snapshot(id)) <==> r in {ConversationsMap, HostState(id)}
    ensures Takes(Snapshot(id), l) == if l in {Conversations, HostReferendum(id)} then 1 else 0
  {
    var s := Snapshot(id);
    Outermost(s, r, l);
    Outermost(s.body, r, l);
    Outermost(s.body.body, r, l);
    Outermost(Use(ConversationsMap, false), r, l);
    Outermost(Use(HostState(id), true), r, l);
  }

  lemma CreatingDoes(id: nat, ps: seq<u32>, r: Region, l: Lock)
    ensures r in Accesses(Creating(id, ps)) <==>
              r in {HostMap, ConversationsMap, HostState(id)} || (r.OutgoingOf? && r.conv in ps)
    ensures Takes(Creating(id, ps), l)
         == if l.Outgoing? then multiset(ps)[l.conv]
            else if l in {HostReferendums, Conversations, HostReferendum(id)} then 1 else 0
  {
    var s := Creating(id, ps);
    Outermost(s, r, l);
    Outermost(s.body, r, l);
    Outermost(s.body.first, r, l);
    Outermost(s.body.second, r, l);
    Outermost(s.body.second.second, r, l);
    Outermost(Use(HostState(id), false), r, l);
    SnapshotDoes(id, r, l);
    QueueForAllDoes(ps, r, l);
  }

  lemma CountingDoes(id: nat, found: bool, ps: seq<u32>, r: Region, l: Lock)
    ensures r in Accesses(Counting(id, found, ps)) <==>
              r == HostMap || (found && (r == HostState(id) || (r.OutgoingOf? && r.conv in ps)))
    ensures Takes(Counting(id, found, ps), l)
         == if l == HostReferendums || (found && l == HostReferendum(id)) then 1
            else if found && l.Outgoing? then multiset(ps)[l.conv] else 0
  {
    var s := Counting(id, found, ps);
    Outermost(s, r, l);
    Outermost(s.body, r, l);
    Outermost(s.body.first, r, l);
    Outermost(s.body.second, r, l);
    if found {
      Outermost(s.body.second.body, r, l);
      Outermost(s.body.second.body.first, r, l);
      QueueForAllDoes(ps, r, l);
    }
  }

  lemma AnsweringDoes(c: u32, id: nat, known: bool, r: Region, l: Lock)
    ensures r in Accesses(Answering(c, id, known)) <==>
              r == ClientMap || (!known && r in {ClientState(id), OutgoingOf(c)})
    ensures Takes(Answering(c, id, known), l)
         == if l == ClientReferendums || (!known && l in {ClientReferendum(id), Outgoing(c)}) then 1 else 0
  {
    var s := Answering(c, id, known);
    Outermost(s, r, l);
    Outermost(s.body, r, l);
    Outermost(s.body.first, r, l);
    Outermost(s.body.second, r, l);
    if !known {
      Outermost(s.body.second.body, r, l);
      Outermost(s.body.second.body.first, r, l);
      BriefDoes(OutgoingOf(c), r, l);
    }
  }

  lemma CompletingDoes(id: nat, found: bool, r: Region, l: Lock)
    ensures r in Accesses(Completing(id, found)) <==> r == ClientMap || (found && r == ClientState(id))
    ensures Takes(Completing(id, found), l)
         == if l == ClientReferendums || (found && l == ClientReferendum(id)) then 1 else 0
  {
    var s := Completing(id, found);
    Outermost(s, r, l);
    Outermost(s.body, r, l);
    Outermost(s.body.first, r, l);
    Outermost(s.body.second, r, l);
    BriefDoes(ClientState(id), r, l);
  }

  /** Participants are the keys of a map, so each comes up once. */
  ghost predicate Distinct(b: Body) {
    (b.CreateReferendum? || b.Response?) ==> forall c | c in b.participants :: multiset(b.participants)[c] == 1
  }

  lemma BodyAccesses(c: u32, b: Body, r: Region)
    ensures r in Accesses(BodyCode(c, b)) <==> !r.IncomingOf? && Touches(IncomingProcessor(c, b), r)
  {
    match b {
      case Ignored => Outermost(Skip, r, Conversations);
      case Hello => BriefDoes(OutgoingOf(c), r, Conversations);
      case CreateReferendum(id, ps) => CreatingDoes(id, ps, r, Conversations);
      case NewQuestion(id, known) => AnsweringDoes(c, id, known, r, Conversations);
      case Response(id, found, ps) => CountingDoes(id, found, ps, r, Conversations);
      case Result(id, found) => CompletingDoes(id, found, r, Conversations);
    }
  }

  lemma BodyTakes(c: u32, b: Body, l: Lock)
    requires Distinct(b)
    ensures Takes(BodyCode(c, b), l) == if !l.Incoming? && Needs(IncomingProcessor(c, b), l) then 1 else 0
  {
    match b {
      case Ignored => Outermost(Skip, HostMap, l);
      case Hello => BriefDoes(OutgoingOf(c), HostMap, l);
      case CreateReferendum(id, ps) => CreatingTakes(c, id, ps, l);
      case NewQuestion(id, known) => AnsweringDoes(c, id, known, HostMap, l);
      case Response(id, found, ps) => CountingTakes(c, id, found, ps, l);
      case Result(id, found) => CompletingDoes(id, found, HostMap, l);
    }
  }

  lemma CreatingTakes(c: u32, id: nat, ps: seq<u32>, l: Lock)
    requires forall p | p in ps :: multiset(ps)[p] == 1
    ensures Takes(Creating(id, ps), l)
         == if !l.Incoming? && Needs(IncomingProcessor(c, CreateReferendum(id, ps)), l) then 1 else 0
  {
    CreatingDoes(id, ps, HostMap, l);
  }

  lemma CountingTakes(c: u32, id: nat, found: bool, ps: seq<u32>, l: Lock)
    requires forall p | p in ps :: multiset(ps)[p] == 1
    ensures Takes(Counting(id, found, ps), l)
         == if !l.Incoming? && Needs(IncomingProcessor(c, Response(id, found, ps)), l) then 1 else 0
  {
    CountingDoes(id, found, ps, HostMap, l);
  }

  lemma ProcessingDoes(c: u32, body: Code, r: Region, l: Lock)
    ensures r in Accesses(Processing(c, body)) <==> r == IncomingOf(c) || r in Accesses(body)
    ensures Takes(Processing(c, body), l) == (if l == Incoming(c) then 1 else 0) + Takes(body, l)
  {
    var s := Processing(c, body);
    Outermost(s, r, l);
    Outermost(s.body, r, l);
    Outermost(s.body.first, r, l);
    Outermost(s.body.second, r, l);
    Outermost(s.body.second.second, r, l);
  }

  lemma OthersAccess(h: Handler, r: Region)
    requires !h.IncomingProcessor?
    ensures r in Accesses(CodeOf(h)) <==> Touches(h, r)
  {
    OneLevelDown(CodeOf(h), r, Conversations);
    forall q: Region ensures r in Accesses(Brief(q)) <==> r == q {
      BriefDoes(q, r, Conversations);
    }
  }

  lemma OthersTake(h: Handler, l: Lock)
    requires !h.IncomingProcessor?
    ensures Takes(CodeOf(h), l) == if Needs(h, l) then 1 else 0
  {
    OneLevelDown(CodeOf(h), HostMap, l);
    forall q: Region ensures Takes(Brief(q), l) == if l == Guard(q) then 1 else 0 {
      BriefDoes(q, HostMap, l);
    }
  }

  lemma {:induction false} OneLevelDown(c: Code, r: Region, l: Lock)
    ensures c.Use? ==> (r in Accesses(c) <==> r == c.region) && Takes(c, l) == 0
    ensures c.Then? ==> (r in Accesses(c) <==> r in Accesses(c.first) || r in Accesses(c.second))
    ensures c.Then? ==> Takes(c, l) == Takes(c.first, l) + Takes(c.second, l)
    ensures c.Then? && c.first.Use? ==> (r in Accesses(c.first) <==> r == c.first.region) && Takes(c.first, l) == 0
    ensures c.Then? && c.second.Skip? ==> r !in Accesses(c.second) && Takes(c.second, l) == 0
  {
    Outermost(c, r, l);
    if c.Then? {
      Outermost(c.first, r, l);
      Outermost(c.second, r, l);
    }
  }

  /** Every handler accesses exactly the regions it touches. */
  lemma AccessesExactly(h: Handler, r: Region)
    ensures r in Accesses(CodeOf(h)) <==> Touches(h, r)
  {
    if h.IncomingProcessor? {
      BodyAccesses(h.conv, h.body, r);
      ProcessingDoes(h.conv, BodyCode(h.conv, h.body), r, HostReferendums);
    } else {
      OthersAccess(h, r);
    }
  }

  /** Every handler takes each lock it needs exactly once, and no other. */
  lemma LocksTakenOnce(h: Handler, l: Lock)
    requires h.IncomingProcessor? ==> Distinct(h.body)
    ensures Takes(CodeOf(h), l) == if Needs(h, l) then 1 else 0
  {
    if h.IncomingProcessor? {
      BodyTakes(h.conv, h.body, l);
      ProcessingDoes(h.conv, BodyCode(h.conv, h.body), HostMap, l);
    } else {
      OthersTake(h, l);
    }
  }

  // ----- the discipline -----

  /** Every lock is taken above all locks held, and every access is made under the region's guard, except to the
      conversations when `open`. */
  ghost predicate Ordered(c: Code, held: set<Lock>, open: bool) {
    match c
    case Skip => true
    case Use(r, _) => Guard(r) in held || (open && r == ConversationsMap)
    case Then(a, b) => Ordered(a, held, open) && Ordered(b, held, open)
    case Locked(l, b) => (forall k | k in held :: Rank(k) < Rank(l)) && Ordered(b, held + {l}, open)
  }

  lemma {:induction false} QueueForAllOrdered(ps: seq<u32>, held: set<Lock>)
    requires forall k | k in held :: Rank(k) < 4
    ensures Ordered(QueueForAll(ps), held, false)
  {
    if ps != [] {
      QueueForAllOrdered(ps[1..], held);
    }
  }

  lemma BodyOrdered(c: u32, b: Body)
    ensures Ordered(BodyCode(c, b), {Incoming(c)}, false)
  {
    match b {
      case CreateReferendum(id, ps) => CreatingOrdered(id, ps, {Incoming(c)});
      case Response(id, found, ps) => CountingOrdered(id, found, ps, {Incoming(c)});
      case NewQuestion(id, known) => AnsweringOrdered(c, id, known, {Incoming(c)});
      case Result(id, found) => CompletingOrdered(id, found, {Incoming(c)});
      case _ =>
    }
  }

  lemma CreatingOrdered(id: nat, ps: seq<u32>, held: set<Lock>)
    requires forall k | k in held :: Rank(k) == 0
    ensures Ordered(Creating(id, ps), held, false)
  {
    var inside := held + {HostReferendums};
    SnapshotOrdered(id, inside);
    QueueForAllOrdered(ps, inside);
    var queueing := Then(Use(HostState(id), false), QueueForAll(ps));
    assert Ordered(queueing, inside, false);
    assert Ordered(Then(Snapshot(id), queueing), inside, false);
  }

  lemma CountingOrdered(id: nat, found: bool, ps: seq<u32>, held: set<Lock>)
    requires forall k | k in held :: Rank(k) == 0
    ensures Ordered(Counting(id, found, ps), held, false)
  {
    var inside := held + {HostReferendums} + {HostReferendum(id)};
    QueueForAllOrdered(ps, inside);
    assert Ordered(Then(Use(HostState(id), true), QueueForAll(ps)), inside, false);
  }

  lemma AnsweringOrdered(c: u32, id: nat, known: bool, held: set<Lock>)
    requires forall k | k in held :: Rank(k) == 0
    ensures Ordered(Answering(c, id, known), held, false)
  {
    var inside := held + {ClientReferendums} + {ClientReferendum(id)};
    assert Ordered(Brief(OutgoingOf(c)), inside, false);
    assert Ordered(Then(Use(ClientState(id), true), Brief(OutgoingOf(c))), inside, false);
  }

  lemma CompletingOrdered(id: nat, found: bool, held: set<Lock>)
    requires forall k | k in held :: Rank(k) == 0
    ensures Ordered(Completing(id, found), held, false)
  {
    assert Ordered(Brief(ClientState(id)), held + {ClientReferendums}, false);
  }

  lemma SnapshotOrdered(id: nat, held: set<Lock>)
    requires HostReferendums in held && forall k | k in held :: Rank(k) < 2
    ensures Ordered(Snapshot(id), held, false)
  {
    var inside := held + {Conversations} + {HostReferendum(id)};
    var reading, writing := Use(ConversationsMap, false), Use(HostState(id), true);
    assert Ordered(reading, inside, false) && Ordered(writing, inside, false);
    assert Ordered(Then(reading, writing), inside, false);
  }

  /** Every handler takes its locks in the order Incoming < referendum maps < Conversations < referendum < Outgoing,
      and makes its accesses under their guards. */
  lemma HandlersOrdered(h: Handler)
    ensures Ordered(CodeOf(h), {}, Unlocked(h))
  {
    if h.IncomingProcessor? {
      assert {} + {Incoming(h.conv)} == {Incoming(h.conv)};
      BodyOrdered(h.conv, h.body);
      assert Ordered(Then(BodyCode(h.conv, h.body), Use(IncomingOf(h.conv), true)), {Incoming(h.conv)}, false);
    }
  }

  // ----- one handler, one critical section -----

  /** Lock `l` is held at every access except those to `skip`. */
  ghost predicate Covered(c: Code, held: set<Lock>, l: Lock, skip: set<Region>) {
    match c
    case Skip => true
    case Use(r, _) => r in skip || l in held
    case Then(a, b) => Covered(a, held, l, skip) && Covered(b, held, l, skip)
    case Locked(k, b) => Covered(b, held + {k}, l, skip)
  }

  lemma {:induction false} CoveredInside(c: Code, held: set<Lock>, l: Lock, skip: set<Region>)
    requires l in held
    ensures Covered(c, held, l, skip)
  {
    match c {
      case Then(a, b) =>
        CoveredInside(a, held, l, skip);
        CoveredInside(b, held, l, skip);
      case Locked(k, b) => CoveredInside(b, held + {k}, l, skip);
      case _ =>
    }
  }

  /** The lock under which a body does all its work on referendums and queues. */
  function BodyLock(conv: u32, b: Body): Lock {
    if HostBody(b) then HostReferendums else if ClientBody(b) then ClientReferendums else Incoming(conv)
  }

  lemma ProcessingCovered(c: u32, b: Body)
    ensures Covered(CodeOf(IncomingProcessor(c, b)), {}, Incoming(c), {})
    ensures Covered(CodeOf(IncomingProcessor(c, b)), {}, BodyLock(c, b), {IncomingOf(c)})
  {
    var held: set<Lock> := {} + {Incoming(c)};
    CoveredInside(Processing(c, BodyCode(c, b)).body, held, Incoming(c), {});
    BodyCovered(BodyCode(c, b), held, BodyLock(c, b), {IncomingOf(c)});
    assert Covered(Then(BodyCode(c, b), Use(IncomingOf(c), true)), held, BodyLock(c, b), {IncomingOf(c)});
  }

  lemma BodyCovered(body: Code, held: set<Lock>, l: Lock, skip: set<Region>)
    requires l in held || (body.Locked? && body.lock == l)
    ensures Covered(body, held, l, skip)
  {
    if l in held {
      CoveredInside(body, held, l, skip);
    } else {
      CoveredInside(body.body, held + {l}, l, skip);
    }
  }

  // ----- as goroutines run it -----

  /** What a goroutine still has to do, one operation after the other. */
  datatype Prog =
    | Done
    | Acquire(lock: Lock, next: Prog)
    | Release(lock: Lock, next: Prog)
    | Access(region: Region, writes: bool, next: Prog)

  /** The operations of the code, followed by `k`. */
  function Flatten(c: Code, k: Prog): Prog {
    match c
    case Skip => k
    case Use(r, w) => Access(r, w, k)
    case Then(a, b) => Flatten(a, Flatten(b, k))
    case Locked(l, b) => Acquire(l, Flatten(b, Release(l, k)))
  }

  function Program(h: Handler): Prog {
    Flatten(CodeOf(h), Done)
  }

  /** The same of what is left to do; besides, only held locks are released, and all of them in the end. */
  ghost predicate Disciplined(p: Prog, held: set<Lock>, open: bool) {
    match p
    case Done => held == {}
    case Acquire(l, next) => (forall k | k in held :: Rank(k) < Rank(l)) && Disciplined(next, held + {l}, open)
    case Release(l, next) => l in held && Disciplined(next, held - {l}, open)
    case Access(r, _, next) => (Guard(r) in held || (open && r == ConversationsMap)) && Disciplined(next, held, open)
  }

  ghost predicate CoveredBy(p: Prog, held: set<Lock>, l: Lock, skip: set<Region>) {
    match p
    case Done => true
    case Acquire(k, next) => CoveredBy(next, held + {k}, l, skip)
    case Release(k, next) => CoveredBy(next, held - {k}, l, skip)
    case Access(r, _, next) => (r in skip || l in held) && CoveredBy(next, held, l, skip)
  }

  lemma {:induction false} FlattenDisciplined(c: Code, k: Prog, held: set<Lock>, open: bool)
    requires Ordered(c, held, open) && Disciplined(k, held, open)
    ensures Disciplined(Flatten(c, k), held, open)
  {
    match c {
      case Then(a, b) =>
        FlattenDisciplined(b, k, held, open);
        FlattenDisciplined(a, Flatten(b, k), held, open);
      case Locked(l, b) =>
        assert held + {l} - {l} == held;
        FlattenDisciplined(b, Release(l, k), held + {l}, open);
      case _ =>
    }
  }

  lemma {:induction false} FlattenCovered(c: Code, k: Prog, held: set<Lock>, open: bool, l: Lock, skip: set<Region>)
    requires Covered(c, held, l, skip) && CoveredBy(k, held, l, skip) && Ordered(c, held, open)
    ensures CoveredBy(Flatten(c, k), held, l, skip)
  {
    match c {
      case Then(a, b) =>
        FlattenCovered(b, k, held, open, l, skip);
        FlattenCovered(a, Flatten(b, k), held, open, l, skip);
      case Locked(m, b) =>
        assert held + {m} - {m} == held;
        FlattenCovered(b, Release(m, k), held + {m}, open, l, skip);
      case _ =>
    }
  }

  // ----- goroutines -----

  datatype Goroutine = Goroutine(runs: Handler, rest: Prog, held: set<Lock>)

  /** Any number of goroutines; one that is done may start another handler, as the loopers and listeners do for ever. */
  type Pool = map<nat, Goroutine>

  predicate Free(s: Pool, l: Lock) {
    forall g | g in s :: l !in s[g].held
  }

  predicate CanRun(s: Pool, g: nat) {
    g in s && match s[g].rest case Done => false case Acquire(l, _) => Free(s, l) case _ => true
  }

  function RunOne(s: Pool, g: nat): Pool
    requires CanRun(s, g)
  {
    match s[g].rest
    case Acquire(l, next) => s[g := s[g].(rest := next, held := s[g].held + {l})]
    case Release(l, next) => s[g := s[g].(rest := next, held := s[g].held - {l})]
    case Access(_, _, next) => s[g := s[g].(rest := next)]
  }

  ghost predicate Advance(s: Pool, t: Pool) {
    exists g: nat :: CanRun(s, g) && t == RunOne(s, g)
  }

  ghost predicate Start(s: Pool, t: Pool) {
    exists g: nat, h: Handler :: (g in s ==> s[g].rest.Done?) && t == s[g := Goroutine(h, Program(h), {})]
  }

  ghost predicate Next(s: Pool, t: Pool) {
    Advance(s, t) || Start(s, t)
  }

  ghost predicate Init(s: Pool) {
    s == map[]
  }

  ghost predicate Reachable(s: Pool) {
    Runs.Reachable(Init, Next, s)
  }

  ghost predicate Fine(x: Goroutine) {
    && Disciplined(x.rest, x.held, Unlocked(x.runs))
    && (x.runs.IncomingProcessor? ==>
          && CoveredBy(x.rest, x.held, Incoming(x.runs.conv), {})
          && CoveredBy(x.rest, x.held, BodyLock(x.runs.conv, x.runs.body), {IncomingOf(x.runs.conv)}))
  }

  lemma StartsFine(h: Handler)
    ensures Fine(Goroutine(h, Program(h), {}))
  {
    HandlersOrdered(h);
    FlattenDisciplined(CodeOf(h), Done, {}, Unlocked(h));
    if h.IncomingProcessor? {
      ProcessingCovered(h.conv, h.body);
      FlattenCovered(CodeOf(h), Done, {}, false, Incoming(h.conv), {});
      FlattenCovered(CodeOf(h), Done, {}, false, BodyLock(h.conv, h.body), {IncomingOf(h.conv)});
    }
  }

  ghost predicate Inv(s: Pool) {
    && (forall g | g in s :: Fine(s[g]))
    && (forall g, h | g in s && h in s && g != h :: s[g].held !! s[h].held)
  }

  lemma NextInv(s: Pool, t: Pool)
    requires Inv(s) && Next(s, t)
    ensures Inv(t)
  {
    if Start(s, t) {
      var g: nat, h: Handler :| (g in s ==> s[g].rest.Done?) && t == s[g := Goroutine(h, Program(h), {})];
      StartsFine(h);
    }
  }

  lemma ReachableInv(s: Pool)
    requires Reachable(s)
    ensures Inv(s)
  {
    forall s, t | Inv(s) && Next(s, t) ensures Inv(t) {
      NextInv(s, t);
    }
    Runs.InvariantHolds(Init, Next, Inv, s);
  }

  /** A lock is never held by two goroutines. */
  lemma MutualExclusion(s: Pool, g: nat, h: nat, l: Lock)
    requires Reachable(s) && g in s && h in s && l in s[g].held && l in s[h].held
    ensures g == h
  {
    ReachableInv(s);
  }

  // ----- races -----

  /** Goroutine `g` is about to access region `r`. */
  predicate At(s: Pool, g: nat, r: Region) {
    g in s && s[g].rest.Access? && s[g].rest.region == r
  }

  /** Two goroutines are about to access the same region, and one of them writes. */
  ghost predicate Race(s: Pool, g: nat, h: nat, r: Region) {
    g != h && At(s, g, r) && At(s, h, r) && (s[g].rest.writes || s[h].rest.writes)
  }

  /** Whoever accesses a region holds its guard, but for those who range over the conversations without a lock. */
  lemma GuardHeld(s: Pool, g: nat, r: Region)
    requires Reachable(s) && At(s, g, r) && !(r == ConversationsMap && Unlocked(s[g].runs))
    ensures Guard(r) in s[g].held
  {
    ReachableInv(s);
    assert Fine(s[g]);
  }

  lemma RacesAreUnlocked(s: Pool, g: nat, h: nat, r: Region)
    requires Reachable(s) && Race(s, g, h, r)
    ensures r == ConversationsMap && (Unlocked(s[g].runs) || Unlocked(s[h].runs))
  {
    if r != ConversationsMap || !(Unlocked(s[g].runs) || Unlocked(s[h].runs)) {
      GuardHeld(s, g, r);
      GuardHeld(s, h, r);
      MutualExclusion(s, g, h, Guard(r));
    }
  }

  /** A user's request ranges over the conversations while a packet starts a new one. */
  lemma ConversationsRace() returns (s: Pool)
    ensures Reachable(s) && Race(s, 0, 1, ConversationsMap)
  {
    var s0: Pool := map[];
    Runs.ReachesSelf(Next, s0);
    assert Init(s0);
    var s1 := Begin(s0, 0, UserRequest(7));
    var s2 := Begin(s1, 1, PacketOfOtherKind(8));
    assert CanRun(s2, 1);
    s := RunOne(s2, 1);
    assert Advance(s2, s);
    Runs.ReachableNext(Init, Next, s2, s);
  }

  lemma Begin(s: Pool, g: nat, h: Handler) returns (t: Pool)
    requires Reachable(s) && g !in s
    ensures Reachable(t) && t == s[g := Goroutine(h, Program(h), {})]
  {
    t := s[g := Goroutine(h, Program(h), {})];
    assert Start(s, t);
    Runs.ReachableNext(Init, Next, s, t);
  }

  /** A race on a region is possible if and only if it is the map of conversations. */
  lemma RacesExactly(r: Region)
    ensures (exists s, g, h :: Reachable(s) && Race(s, g, h, r)) <==> r == ConversationsMap
  {
    if s, g, h :| Reachable(s) && Race(s, g, h, r) {
      RacesAreUnlocked(s, g, h, r);
    }
    if r == ConversationsMap {
      var s := ConversationsRace();
      assert Race(s, 0, 1, r);
    }
  }

  /** Goroutine `g` is in the middle of a body: it is about to access something other than its own buffer. */
  ghost predicate InBody(s: Pool, g: nat) {
    && g in s && s[g].runs.IncomingProcessor? && s[g].rest.Access?
    && s[g].rest.region != IncomingOf(s[g].runs.conv)
  }

  /** No two goroutines are in the middle of host bodies, or of client bodies, or of bodies of one conversation. So
      each body is one critical section as a whole, not only access by access. */
  lemma BodiesExclude(s: Pool, g: nat, h: nat)
    requires Reachable(s) && InBody(s, g) && InBody(s, h)
    requires BodyLock(s[g].runs.conv, s[g].runs.body) == BodyLock(s[h].runs.conv, s[h].runs.body)
          || s[g].runs.conv == s[h].runs.conv
    ensures g == h
  {
    ReachableInv(s);
    assert Fine(s[g]) && Fine(s[h]);
    if s[g].runs.conv == s[h].runs.conv {
      MutualExclusion(s, g, h, Incoming(s[g].runs.conv));
    } else {
      MutualExclusion(s, g, h, BodyLock(s[g].runs.conv, s[g].runs.body));
    }
  }

  // ----- no deadlock -----

  ghost predicate Unfinished(s: Pool, g: nat) {
    g in s && !s[g].rest.Done?
  }

  /** Among goroutines that all wait for a lock, one waits for a lock of the highest rank. */
  lemma {:induction false} HighestWaiter(s: Pool, gs: set<nat>) returns (top: nat)
    requires gs != {} && forall g | g in gs :: g in s && s[g].rest.Acquire?
    ensures top in gs && forall g | g in gs :: Rank(s[g].rest.lock) <= Rank(s[top].rest.lock)
    decreases |gs|
  {
    var g :| g in gs;
    var others := gs - {g};
    if others == {} {
      assert gs == {g};
      top := g;
    } else {
      top := HighestWaiter(s, others);
      top := if Rank(s[top].rest.lock) < Rank(s[g].rest.lock) then g else top;
    }
  }

  lemma SomeoneCanRun(s: Pool, g: nat) returns (r: nat)
    requires Inv(s) && Unfinished(s, g)
    ensures CanRun(s, r)
  {
    var waiting := set k | k in s && !s[k].rest.Done?;
    if r' :| r' in waiting && !s[r'].rest.Acquire? {
      return r';
    }
    assert g in waiting;
    r := HighestWaiter(s, waiting);
    forall h | h in s ensures s[r].rest.lock !in s[h].held {
      HolderWaitsHigher(s, h, s[r].rest.lock);
    }
  }

  /** A goroutine that waits while it holds a lock waits for a lock of a higher rank. */
  lemma HolderWaitsHigher(s: Pool, h: nat, l: Lock)
    requires Inv(s) && h in s
    ensures l in s[h].held ==> Unfinished(s, h) && (s[h].rest.Acquire? ==> Rank(l) < Rank(s[h].rest.lock))
  {}

  /** In every reachable state with an unfinished goroutine, some goroutine can take its next step. */
  lemma DeadlockFreedom(s: Pool, g: nat)
    requires Reachable(s) && Unfinished(s, g)
    ensures exists r :: CanRun(s, r)
  {
    ReachableInv(s);
    var r := SomeoneCanRun(s, g);
  }

  // ----- all the work that has been started can be finished -----

  function Length(p: Prog): nat {
    match p
    case Done => 0
    case Acquire(_, next) => 1 + Length(next)
    case Release(_, next) => 1 + Length(next)
    case Access(_, _, next) => 1 + Length(next)
  }

  ghost function Work(s: Pool): nat {
    if s == map[] then 0
    else
      var g :| g in s;
      Length(s[g].rest) + Work(s - {g})
  }

  lemma {:induction false} WorkWithout(s: Pool, g: nat)
    requires g in s
    ensures Work(s) == Length(s[g].rest) + Work(s - {g})
    decreases s.Keys
  {
    var k :| k in s && Work(s) == Length(s[k].rest) + Work(s - {k});
    if k != g {
      WorkWithout(s - {k}, g);
      WorkWithout(s - {g}, k);
      assert s - {k} - {g} == s - {g} - {k};
    }
  }

  /** Every step that is not a start leaves one operation less to do. */
  lemma AdvanceShrinks(s: Pool, g: nat)
    requires CanRun(s, g)
    ensures Work(RunOne(s, g)) == Work(s) - 1
  {
    var t := RunOne(s, g);
    WorkWithout(s, g);
    WorkWithout(t, g);
    assert s - {g} == t - {g};
  }

  /** However goroutines have been interleaved, they can all be run to completion without starting anything new. */
  lemma {:induction false} CanFinish(s: Pool) returns (t: Pool)
    requires Inv(s)
    ensures Runs.Reaches(Advance, s, t) && t.Keys == s.Keys && forall g | g in t :: t[g].rest.Done? && t[g].held == {}
    decreases Work(s)
  {
    if g :| Unfinished(s, g) {
      var r := SomeoneCanRun(s, g);
      var m := RunOne(s, r);
      AdvanceShrinks(s, r);
      assert Advance(s, m);
      NextInv(s, m);
      t := CanFinish(m);
      Runs.ReachesOne(Advance, s, m);
      Runs.ReachesTransitive(Advance, s, m, t);
    } else {
      Runs.ReachesSelf(Advance, s);
      assert forall g | g in s :: Fine(s[g]) && !Unfinished(s, g);
      t := s;
    }
  }
}
