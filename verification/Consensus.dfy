/** One server and any number of clients running the vote handlers over at-least-once, unordered channels. */
module Consensus {
  import opened Bytes
  import opened Pip
  import opened Messages
  import opened Referendum
  import opened EarlyCall
  import Runs

  /** `up[c]` and `down[c]` log what has been queued between client `c` and the server; any logged message may be
      handled any number of times, in any order, or never. `ballots` records the question and the answer each client
      computed for a VoteID, before any overwriting, `created` how often the server set a VoteID up, and `snapshots`
      the conversations it knew when it last did. `heard[c]` and
      `told[c]` list what the server has handled from client `c`, and what client `c` has handled, in that order. */
  datatype Sys = Sys(
    serverId: u32, server: Node, clients: map<u32, Node>,
    up: map<u32, seq<Msg>>, down: map<u32, seq<Msg>>,
    ballots: map<(u32, VoteId), (bytes, u16)>, created: map<VoteId, nat>,
    snapshots: map<VoteId, map<u32, Peer>>,
    heard: map<u32, seq<Msg>>, told: map<u32, seq<Msg>>)

  datatype Action =
    | ServerHandles(c: u32, m: Msg, ch: Choice)
    | ClientHandles(c: u32, m: Msg, ch: Choice)
    | ClientRequests(c: u32, v: VoteId, question: bytes)
    | ClientGreets(c: u32, features: seq<u16>)
    | ServerGreets(c: u32, features: seq<u16>)

  function NewNode(): Node {
    Node(map[], map[])
  }

  ghost predicate Init(s: Sys) {
    && s.server == NewNode()
    && s.up.Keys == s.down.Keys == s.heard.Keys == s.told.Keys == s.clients.Keys
    && (forall c | c in s.clients :: s.clients[c] == NewNode() && s.up[c] == [] && s.down[c] == [])
    && (forall c | c in s.clients :: s.heard[c] == [] && s.told[c] == [])
    && s.ballots == map[] && s.created == map[] && s.snapshots == map[]
  }

  /** Over-long messages are dropped when they are queued. */
  function Push(log: seq<Msg>, m: Msg): seq<Msg> {
    if Fits(m) then log + [m] else log
  }

  function PushAll(logs: map<u32, seq<Msg>>, sends: map<u32, Msg>): map<u32, seq<Msg>> {
    map c | c in logs :: if c in sends then Push(logs[c], sends[c]) else logs[c]
  }

  function PushTo(logs: map<u32, seq<Msg>>, c: u32, m: Msg): map<u32, seq<Msg>> {
    if c in logs then logs[c := Push(logs[c], m)] else logs
  }

  function Handled(logs: map<u32, seq<Msg>>, c: u32, m: Msg): map<u32, seq<Msg>> {
    if c in logs then logs[c := logs[c] + [m]] else logs
  }

  predicate Queued(logs: map<u32, seq<Msg>>, c: u32, m: Msg) {
    c in logs && m in logs[c]
  }

  lemma PushAllQueued(logs: map<u32, seq<Msg>>, sends: map<u32, Msg>)
    ensures PushAll(logs, sends).Keys == logs.Keys
    ensures forall c, m | Queued(PushAll(logs, sends), c, m) :: Queued(logs, c, m) || (c in sends && m == sends[c])
    ensures forall c, m | Queued(logs, c, m) :: Queued(PushAll(logs, sends), c, m)
  {}

  lemma PushToQueued(logs: map<u32, seq<Msg>>, d: u32, m': Msg)
    ensures PushTo(logs, d, m').Keys == logs.Keys
    ensures forall c, m | Queued(PushTo(logs, d, m'), c, m) :: Queued(logs, c, m) || (c == d && m == m')
    ensures forall c, m | Queued(logs, c, m) :: Queued(PushTo(logs, d, m'), c, m)
  {}

  function Created(s: Sys, v: VoteId): nat {
    if v in s.created then s.created[v] else 0
  }

  /** A handler may run on a message that was queued, with any choice the code can make; a node knows only its own
      peers. `NodeOk` holds in every reachable state, so it excludes nothing. */
  predicate Enabled(s: Sys, act: Action) {
    match act
    case ServerHandles(c, m, ch) =>
      Queued(s.up, c, m) && NodeOk(s.server) && Allowed(s.server, c, m, ch) && ch.known.Keys <= s.clients.Keys
    case ClientHandles(c, m, ch) =>
      Queued(s.down, c, m) && c in s.clients && NodeOk(s.clients[c])
      && Allowed(s.clients[c], s.serverId, m, ch) && ch.known.Keys <= {s.serverId}
    case ClientRequests(c, _, _) => c in s.up
    case ClientGreets(c, _) => c in s.up
    case ServerGreets(c, _) => c in s.down
  }

  function ServerStep(s: Sys, c: u32, m: Msg, ch: Choice): Sys
    requires NodeOk(s.server)
  {
    s.(server := Handle(s.server, c, m, ch),
       down := PushAll(s.down, Sends(s.server, c, m, ch)),
       heard := Handled(s.heard, c, m),
       created := if m.RequestVote? then s.created[m.voteId := Created(s, m.voteId) + 1] else s.created,
       snapshots := if m.RequestVote? then s.snapshots[m.voteId := ch.known] else s.snapshots)
  }

  function ClientStep(s: Sys, c: u32, m: Msg, ch: Choice): Sys
    requires c in s.clients && NodeOk(s.clients[c])
  {
    var n, sends := s.clients[c], Sends(s.clients[c], s.serverId, m, ch);
    s.(clients := s.clients[c := Handle(n, s.serverId, m, ch)],
       up := if s.serverId in sends then PushTo(s.up, c, sends[s.serverId]) else s.up,
       told := Handled(s.told, c, m),
       ballots := if m.AskQuestion? && m.voteId !in n.guest then s.ballots[(c, m.voteId) := (m.question, ch.computed)]
                  else s.ballots)
  }

  function Apply(s: Sys, act: Action): Sys
    requires Enabled(s, act)
  {
    match act
    case ServerHandles(c, m, ch) => ServerStep(s, c, m, ch)
    case ClientHandles(c, m, ch) => ClientStep(s, c, m, ch)
    case ClientRequests(c, v, q) => s.(up := PushTo(s.up, c, RequestVote(v, q)))
    case ClientGreets(c, f) => s.(up := PushTo(s.up, c, Greet(f)))
    case ServerGreets(c, f) => s.(down := PushTo(s.down, c, Greet(f)))
  }

  ghost predicate Next(s: Sys, t: Sys) {
    exists act :: Enabled(s, act) && t == Apply(s, act)
  }

  ghost predicate Reachable(s: Sys) {
    Runs.Reachable(Init, Next, s)
  }

  /** An enabled action leads to the next state of the run. */
  lemma Take(s: Sys, act: Action)
    requires Reachable(s) && Enabled(s, act)
    ensures Runs.Reaches(Next, s, Apply(s, act)) && Reachable(Apply(s, act))
  {
    assert Next(s, Apply(s, act));
    Runs.ReachesOne(Next, s, Apply(s, act));
    Runs.ReachableNext(Init, Next, s, Apply(s, act));
  }

  // ----- who says what -----

  predicate FromClient(m: Msg) {
    m.Greet? || m.GreetBack? || m.RequestVote? || m.CastVote?
  }

  predicate FromServer(m: Msg) {
    m.Greet? || m.GreetBack? || m.AskQuestion? || m.AnnounceResult?
  }

  ghost predicate Shape(s: Sys) {
    && s.up.Keys == s.down.Keys == s.heard.Keys == s.told.Keys == s.clients.Keys
    && s.server.guest == map[]
    && (forall c | c in s.clients :: s.clients[c].host == map[])
    && (forall c, m | Queued(s.up, c, m) :: FromClient(m))
    && (forall c, m | Queued(s.down, c, m) :: FromServer(m))
    && (forall v | v in s.server.host :: RefOk(s.server.host[v]) && s.server.host[v].participants <= s.clients.Keys)
  }

  lemma ShapeStep(s: Sys, act: Action)
    requires Shape(s) && Enabled(s, act)
    ensures Shape(Apply(s, act))
  {
    match act {
      case ServerHandles(c, m, ch) => ShapeServer(s, c, m, ch);
      case ClientHandles(c, m, ch) => ShapeClient(s, c, m, ch);
      case ClientRequests(c, v, q) => ShapePushUp(s, c, RequestVote(v, q));
      case ClientGreets(c, f) => ShapePushUp(s, c, Greet(f));
      case ServerGreets(c, f) => ShapePushDown(s, c, Greet(f));
    }
  }

  lemma ShapePushUp(s: Sys, c: u32, m: Msg)
    requires Shape(s) && FromClient(m)
    ensures Shape(s.(up := PushTo(s.up, c, m)))
  {
    PushToQueued(s.up, c, m);
  }

  lemma ShapePushDown(s: Sys, c: u32, m: Msg)
    requires Shape(s) && FromServer(m)
    ensures Shape(s.(down := PushTo(s.down, c, m)))
  {
    PushToQueued(s.down, c, m);
  }

  lemma ShapeServer(s: Sys, c: u32, m: Msg, ch: Choice)
    requires Shape(s) && Enabled(s, ServerHandles(c, m, ch))
    ensures Shape(ServerStep(s, c, m, ch))
  {
    assert FromClient(m);
    HostsStayOk(s, c, m, ch);
    ServerSaysFit(s.server, c, m, ch);
    ShapeTransfer(s, ServerStep(s, c, m, ch), Sends(s.server, c, m, ch));
  }

  lemma ServerSaysFit(n: Node, c: u32, m: Msg, ch: Choice)
    requires NodeOk(n) && FromClient(m)
    ensures forall d | d in Sends(n, c, m, ch) :: FromServer(Sends(n, c, m, ch)[d])
    ensures Handle(n, c, m, ch).guest == n.guest
  {}

  lemma ShapeTransfer(s: Sys, t: Sys, sends: map<u32, Msg>)
    requires Shape(s) && t.clients == s.clients && t.up == s.up && t.down == PushAll(s.down, sends)
    requires t.heard.Keys == s.heard.Keys && t.told == s.told && t.server.guest == s.server.guest
    requires forall d | d in sends :: FromServer(sends[d])
    requires forall v | v in t.server.host ::
               RefOk(t.server.host[v]) && t.server.host[v].participants <= s.clients.Keys
    ensures Shape(t)
  {
    PushAllQueued(s.down, sends);
  }

  lemma HostsStayOk(s: Sys, c: u32, m: Msg, ch: Choice)
    requires Shape(s) && Enabled(s, ServerHandles(c, m, ch)) && FromClient(m)
    ensures forall v | v in Handle(s.server, c, m, ch).host ::
      var h := Handle(s.server, c, m, ch).host[v]; RefOk(h) && h.participants <= s.clients.Keys
  {
    if m.CastVote? && m.voteId in s.server.host {
      RespondKeeps(s.server.host[m.voteId], c, m.response, ch.winner);
    }
    if m.RequestVote? {
      NewRefOk(m.question, EligiblePeers(ch.known));
    }
  }

  lemma ShapeClient(s: Sys, c: u32, m: Msg, ch: Choice)
    requires Shape(s) && Enabled(s, ClientHandles(c, m, ch))
    ensures Shape(ClientStep(s, c, m, ch))
  {
    assert FromServer(m);
    var n, sends := s.clients[c], Sends(s.clients[c], s.serverId, m, ch);
    assert Handle(n, s.serverId, m, ch).host == map[];
    if s.serverId in sends {
      ShapeClientSends(s, c, sends[s.serverId], Handle(n, s.serverId, m, ch), ClientStep(s, c, m, ch));
    } else {
      ShapeClientQuiet(s, c, Handle(n, s.serverId, m, ch), ClientStep(s, c, m, ch));
    }
  }

  lemma ShapeClientQuiet(s: Sys, c: u32, n: Node, t: Sys)
    requires Shape(s) && c in s.clients && n.host == map[]
    requires t == s.(clients := s.clients[c := n], ballots := t.ballots, told := t.told) && t.told.Keys == s.told.Keys
    ensures Shape(t)
  {}

  lemma ShapeClientSends(s: Sys, c: u32, m: Msg, n: Node, t: Sys)
    requires Shape(s) && c in s.clients && FromClient(m) && n.host == map[]
    requires t == s.(clients := s.clients[c := n], up := PushTo(s.up, c, m), ballots := t.ballots, told := t.told)
    requires t.told.Keys == s.told.Keys
    ensures Shape(t)
  {
    PushToQueued(s.up, c, m);
  }

  // ----- clients: one answer per VoteID, ever -----

  ghost predicate ClientOk(s: Sys, c: u32) {
    && (forall v :: (c, v) in s.ballots <==> c in s.clients && v in s.clients[c].guest)
    && (forall v | c in s.clients && v in s.clients[c].guest :: GuestOk(s.clients[c].guest[v], s.ballots[(c, v)]))
    && (forall m | Queued(s.up, c, m) && m.CastVote? :: CastAs(s, c, m.voteId, m.response))
  }

  ghost predicate GuestOk(g: ClientRef, ballot: (bytes, u16)) {
    g.question == ballot.0 && (!g.complete ==> g.result == ballot.1)
  }

  /** Client `c` computed the answer `r` to `v`. */
  ghost predicate CastAs(s: Sys, c: u32, v: VoteId, r: u16) {
    (c, v) in s.ballots && s.ballots[(c, v)].1 == r
  }

  ghost predicate ClientsOk(s: Sys) {
    forall c :: ClientOk(s, c)
  }

  lemma BallotsGrow(s: Sys, act: Action)
    requires Shape(s) && ClientsOk(s) && Enabled(s, act)
    ensures forall k | k in s.ballots :: k in Apply(s, act).ballots && Apply(s, act).ballots[k] == s.ballots[k]
  {
    if act.ClientHandles? {
      assert ClientOk(s, act.c);
    }
  }

  lemma ClientsStep(s: Sys, act: Action, d: u32)
    requires Shape(s) && ClientsOk(s) && Enabled(s, act)
    ensures ClientOk(Apply(s, act), d)
  {
    assert ClientOk(s, d);
    if !act.ClientHandles? {
      NoClientHandles(s, act, d);
    } else if act.c == d {
      OwnStep(s, d, act.m, act.ch);
    } else {
      OtherStep(s, act.c, act.m, act.ch, d);
    }
  }

  lemma NoClientHandles(s: Sys, act: Action, d: u32)
    requires ClientOk(s, d) && Enabled(s, act) && !act.ClientHandles?
    ensures ClientOk(Apply(s, act), d)
  {
    match act {
      case ClientRequests(c, v, q) => PushToQueued(s.up, c, RequestVote(v, q));
      case ClientGreets(c, f) => PushToQueued(s.up, c, Greet(f));
      case _ =>
    }
    SameAnswers(s, Apply(s, act), d);
  }

  lemma OwnStep(s: Sys, c: u32, m: Msg, ch: Choice)
    requires Shape(s) && ClientOk(s, c) && Enabled(s, ClientHandles(c, m, ch))
    ensures ClientOk(ClientStep(s, c, m, ch), c)
  {
    assert FromServer(m);
    if m.AskQuestion? && m.voteId !in s.clients[c].guest {
      OwnAnswer(s, c, m.voteId, m.question, ch.computed);
    } else if m.AnnounceResult? && m.voteId in s.clients[c].guest && !s.clients[c].guest[m.voteId].complete {
      OwnResult(s, c, m.voteId, m.response);
    } else {
      OwnQuiet(s, c, m, ch);
    }
  }

  lemma OwnQuiet(s: Sys, c: u32, m: Msg, ch: Choice)
    requires ClientOk(s, c) && FromServer(m) && c in s.clients && NodeOk(s.clients[c])
    requires !(m.AskQuestion? && m.voteId !in s.clients[c].guest)
    requires !(m.AnnounceResult? && m.voteId in s.clients[c].guest && !s.clients[c].guest[m.voteId].complete)
    ensures ClientOk(ClientStep(s, c, m, ch), c)
  {
    PushToQueued(s.up, c, GreetBack(ch.features));
    SameAnswers(s, ClientStep(s, c, m, ch), c);
  }

  /** The client knows what it knew, and has not voted again. */
  lemma SameAnswers(s: Sys, t: Sys, c: u32)
    requires ClientOk(s, c) && (c in t.clients <==> c in s.clients)
    requires forall v :: (c, v) in t.ballots <==> (c, v) in s.ballots
    requires forall v | (c, v) in s.ballots :: t.ballots[(c, v)] == s.ballots[(c, v)]
    requires c in s.clients ==> t.clients[c].guest == s.clients[c].guest
    requires forall m | Queued(t.up, c, m) && m.CastVote? :: Queued(s.up, c, m)
    ensures ClientOk(t, c)
  {}

  /** The first question with this ID: the client answers and remembers what it answered. */
  lemma OwnAnswer(s: Sys, c: u32, v: VoteId, q: bytes, r: u16)
    requires c in s.clients && v !in s.clients[c].guest && ClientOk(s, c)
    ensures var n := s.clients[c].(guest := s.clients[c].guest[v := ClientRef(q, r, false)]);
      ClientOk(s.(clients := s.clients[c := n], up := PushTo(s.up, c, CastVote(v, r)),
                  ballots := s.ballots[(c, v) := (q, r)]), c)
  {}

  /** A result overwrites the answer but not the record of it. */
  lemma OwnResult(s: Sys, c: u32, v: VoteId, r: u16)
    requires c in s.clients && v in s.clients[c].guest && ClientOk(s, c)
    ensures ClientOk(s.(clients := s.clients[c := s.clients[c].(guest :=
                          s.clients[c].guest[v := s.clients[c].guest[v].(result := r, complete := true)])]), c)
  {}

  lemma OtherStep(s: Sys, c: u32, m: Msg, ch: Choice, d: u32)
    requires Shape(s) && ClientOk(s, d) && Enabled(s, ClientHandles(c, m, ch)) && c != d
    ensures ClientOk(ClientStep(s, c, m, ch), d)
  {
    var t := ClientStep(s, c, m, ch);
    assert forall v :: (d, v) in t.ballots <==> (d, v) in s.ballots;
    var sends := Sends(s.clients[c], s.serverId, m, ch);
    if s.serverId in sends {
      PushToQueued(s.up, c, sends[s.serverId]);
    }
    SameAnswers(s, t, d);
  }

  // ----- the tally -----

  /** The counted voters whose own computed answer to `v` was `r`. */
  ghost function Voters(s: Sys, v: VoteId, r: u16): set<u32>
    requires v in s.server.host
  {
    set c | c in s.server.host[v].who && CastAs(s, c, v, r)
  }

  ghost predicate TallyOk(s: Sys, v: VoteId) {
    v in s.server.host ==>
      && (forall c | c in s.server.host[v].who :: (c, v) in s.ballots)
      && (forall r :: Count(s.server.host[v], r) == |Voters(s, v, r)|)
  }

  lemma TallyStep(s: Sys, act: Action, v: VoteId)
    requires Shape(s) && ClientsOk(s) && TallyOk(s, v) && Enabled(s, act)
    ensures TallyOk(Apply(s, act), v)
  {
    var t := Apply(s, act);
    BallotsGrow(s, act);
    if v in t.server.host {
      if act.ServerHandles? {
        TallyServer(s, act.c, act.m, act.ch, v);
      } else {
        forall r ensures Voters(t, v, r) == Voters(s, v, r) {}
      }
    }
  }

  lemma TallyServer(s: Sys, c: u32, m: Msg, ch: Choice, v: VoteId)
    requires Shape(s) && ClientsOk(s) && TallyOk(s, v) && Enabled(s, ServerHandles(c, m, ch))
    ensures TallyOk(ServerStep(s, c, m, ch), v)
  {
    if m.CastVote? && m.voteId == v && v in s.server.host && Admits(s.server.host[v], c) {
      assert ClientOk(s, c);
      TallyCounts(s, c, m.response, ch, v);
    } else {
      TallyStays(s, c, m, ch, v);
    }
  }

  lemma TallyCounts(s: Sys, c: u32, response: u16, ch: Choice, v: VoteId)
    requires NodeOk(s.server) && TallyOk(s, v) && CastAs(s, c, v, response)
    requires v in s.server.host && Admits(s.server.host[v], c)
    ensures TallyOk(ServerStep(s, c, CastVote(v, response), ch), v)
  {
    RespondCounts(s.server.host[v], c, response, ch.winner);
    OneMoreVoter(s, ServerStep(s, c, CastVote(v, response), ch), c, response, v);
  }

  lemma RespondCounts(h: HostRef, c: u32, r: u16, winner: u16)
    requires WhoOk(h) && Admits(h, c)
    ensures Respond(h, c, r, winner).who == h.who + {c}
    ensures forall s :: Count(Respond(h, c, r, winner), s) == Count(h, s) + (if s == r then 1 else 0)
  {}

  lemma OneMoreVoter(s: Sys, t: Sys, c: u32, response: u16, v: VoteId)
    requires TallyOk(s, v) && CastAs(s, c, v, response) && t.ballots == s.ballots
    requires v in s.server.host && v in t.server.host && c !in s.server.host[v].who
    requires t.server.host[v].who == s.server.host[v].who + {c}
    requires forall r :: Count(t.server.host[v], r) == Count(s.server.host[v], r) + (if r == response then 1 else 0)
    ensures TallyOk(t, v)
  {
    forall r ensures Count(t.server.host[v], r) == |Voters(t, v, r)| {
      if r == response {
        assert Voters(t, v, r) == Voters(s, v, r) + {c};
      } else {
        assert Voters(t, v, r) == Voters(s, v, r);
      }
    }
  }

  lemma TallyStays(s: Sys, c: u32, m: Msg, ch: Choice, v: VoteId)
    requires NodeOk(s.server) && TallyOk(s, v)
    requires !(m.CastVote? && m.voteId == v && v in s.server.host && Admits(s.server.host[v], c))
    ensures TallyOk(ServerStep(s, c, m, ch), v)
  {
    var t := ServerStep(s, c, m, ch);
    if v in t.server.host {
      if m.RequestVote? && m.voteId == v {
        forall r ensures Voters(t, v, r) == {} {}
      } else {
        assert t.server.host[v] == s.server.host[v];
        forall r ensures Voters(t, v, r) == Voters(s, v, r) {}
      }
    }
  }

  // ----- where questions come from -----

  ghost predicate Proposed(s: Sys, v: VoteId, question: bytes) {
    exists c :: Queued(s.up, c, RequestVote(v, question))
  }

  ghost predicate OriginOk(s: Sys) {
    && (forall v | v in s.server.host :: Proposed(s, v, s.server.host[v].question))
    && (forall c, m | Queued(s.down, c, m) && m.AskQuestion? :: Proposed(s, m.voteId, m.question))
    && (forall k | k in s.ballots :: Proposed(s, k.1, s.ballots[k].0))
  }

  lemma ProposedStays(s: Sys, act: Action, v: VoteId, question: bytes)
    requires Enabled(s, act) && Proposed(s, v, question)
    ensures Proposed(Apply(s, act), v, question)
  {
    var c :| Queued(s.up, c, RequestVote(v, question));
    assert Queued(Apply(s, act).up, c, RequestVote(v, question));
  }

  lemma OriginStep(s: Sys, act: Action)
    requires Shape(s) && OriginOk(s) && Enabled(s, act)
    ensures OriginOk(Apply(s, act))
  {
    var t := Apply(s, act);
    forall v, q | Proposed(s, v, q) ensures Proposed(t, v, q) {
      ProposedStays(s, act, v, q);
    }
    match act {
      case ServerHandles(c, m, ch) => OriginServer(s, c, m, ch);
      case ClientHandles(c, m, ch) => OriginClient(s, c, m, ch);
      case ServerGreets(c, f) => PushToQueued(s.down, c, Greet(f));
      case _ =>
    }
  }

  lemma OriginClient(s: Sys, c: u32, m: Msg, ch: Choice)
    requires Shape(s) && OriginOk(s) && Enabled(s, ClientHandles(c, m, ch))
    ensures OriginOk(ClientStep(s, c, m, ch))
  {
    assert FromServer(m);
    var t := ClientStep(s, c, m, ch);
    forall v, q | Proposed(s, v, q) ensures Proposed(t, v, q) {
      ProposedStays(s, ClientHandles(c, m, ch), v, q);
    }
    assert t.server == s.server && t.down == s.down;
  }

  lemma OriginServer(s: Sys, c: u32, m: Msg, ch: Choice)
    requires Shape(s) && OriginOk(s) && Enabled(s, ServerHandles(c, m, ch))
    ensures OriginOk(ServerStep(s, c, m, ch))
  {
    assert FromClient(m);
    assert m.RequestVote? ==> Proposed(s, m.voteId, m.question);
    QuestionsKept(s, c, m, ch);
    OriginTransfer(s, ServerStep(s, c, m, ch), Sends(s.server, c, m, ch));
  }

  lemma QuestionsKept(s: Sys, c: u32, m: Msg, ch: Choice)
    requires NodeOk(s.server) && FromClient(m)
    ensures forall v | v in Handle(s.server, c, m, ch).host ::
      || (v in s.server.host && Handle(s.server, c, m, ch).host[v].question == s.server.host[v].question)
      || m == RequestVote(v, Handle(s.server, c, m, ch).host[v].question)
    ensures forall d | d in Sends(s.server, c, m, ch) && Sends(s.server, c, m, ch)[d].AskQuestion? ::
      m == RequestVote(Sends(s.server, c, m, ch)[d].voteId, Sends(s.server, c, m, ch)[d].question)
  {}

  lemma OriginTransfer(s: Sys, t: Sys, sends: map<u32, Msg>)
    requires OriginOk(s) && t.up == s.up && t.ballots == s.ballots && t.down == PushAll(s.down, sends)
    requires forall v | v in t.server.host :: Proposed(s, v, t.server.host[v].question)
    requires forall d | d in sends && sends[d].AskQuestion? :: Proposed(s, sends[d].voteId, sends[d].question)
    ensures OriginOk(t)
  {
    forall v, q | Proposed(s, v, q) ensures Proposed(t, v, q) {
      var d :| Queued(s.up, d, RequestVote(v, q));
      assert Queued(t.up, d, RequestVote(v, q));
    }
    PushAllQueued(s.down, sends);
  }
}
