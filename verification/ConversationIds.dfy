/** How nodes come by their conversation IDs: a server and any number of clients that dispatch packets in any order,
    while ping replies are lost, late or repeated. */
module ConversationIds {
  import opened Bytes
  import opened Packet
  import opened Listener
  import Runs

  /** A server, clients by address, and the ping replies the server has sent to each address. `served` and
      `dispatched` list the packets that the server and each client have dispatched so far. */
  datatype Ids = Ids(
    server: State, clients: map<int, State>, replies: set<(int, u32)>,
    served: seq<Pckt>, dispatched: map<int, seq<Pckt>>)

  /** The server has given itself an ID at start-up; the clients have none yet. */
  ghost predicate Init(s: Ids) {
    && s.server.selfId != 0 && s.server.generated == {s.server.selfId} && s.server.conversations == {}
    && s.replies == {} && s.served == [] && s.dispatched.Keys == s.clients.Keys
    && (forall a | a in s.clients ::
          s.clients[a].selfId == 0 && s.clients[a].conversations == {} && s.dispatched[a] == [])
  }

  /** The server dispatches any packet, from any address; `newId` is the number drawn if it is a ping. */
  ghost predicate ServerTakes(s: Ids, t: Ids, addr: int, p: Pckt, newId: u32) {
    var (after, outcome) := Dispatch(s.server, p, newId);
    && IsFresh(s.server.generated, newId)
    && t == s.(server := after, served := s.served + [p],
               replies := if outcome.PingReply? then s.replies + {(addr, outcome.id)} else s.replies)
  }

  /** A client dispatches any packet; a ping reply only if the server has sent one with that ID to its address. */
  ghost predicate ClientTakes(s: Ids, t: Ids, addr: int, p: Pckt, newId: u32) {
    && addr in s.clients && addr in s.dispatched
    && (p.header.kind == PING_RES ==> (addr, p.header.convId) in s.replies)
    && t == s.(clients := s.clients[addr := Dispatch(s.clients[addr], p, newId).0],
               dispatched := s.dispatched[addr := s.dispatched[addr] + [p]])
  }

  ghost predicate Next(s: Ids, t: Ids) {
    || (exists addr, p, newId :: ServerTakes(s, t, addr, p, newId))
    || (exists addr, p, newId :: ClientTakes(s, t, addr, p, newId))
  }

  ghost predicate Reachable(s: Ids) {
    Runs.Reachable(Init, Next, s)
  }

  // ----- what a history of dispatched packets says; 0xFFFE is a ping, 0xFFFF a reply to one -----

  ghost predicate GotReply(ps: seq<Pckt>) {
    exists i | 0 <= i < |ps| :: ps[i].header.kind == 0xFFFF
  }

  ghost predicate FirstReply(ps: seq<Pckt>, i: nat) {
    i < |ps| && ps[i].header.kind == 0xFFFF && forall j | 0 <= j < i :: ps[j].header.kind != 0xFFFF
  }

  /** A packet of conversation `id` at position `j`. */
  ghost predicate BelongsTo(ps: seq<Pckt>, j: int, id: u32) {
    0 <= j < |ps| && ps[j].header.kind < 0xFFFE && ps[j].header.convId == id
  }

  ghost predicate AfterReply(ps: seq<Pckt>, id: u32) {
    exists i, j | 0 <= i < j < |ps| :: ps[i].header.kind == 0xFFFF && BelongsTo(ps, j, id)
  }

  function Pings(ps: seq<Pckt>): nat {
    if ps == [] then 0 else Pings(ps[..|ps| - 1]) + (if ps[|ps| - 1].header.kind == 0xFFFE then 1 else 0)
  }

  function Given(replies: set<(int, u32)>): set<u32> {
    set r | r in replies :: r.1
  }

  // ----- one more packet -----

  lemma ReplyMore(ps: seq<Pckt>, p: Pckt)
    ensures GotReply(ps + [p]) <==> GotReply(ps) || p.header.kind == 0xFFFF
  {
    if GotReply(ps) {
      var i :| 0 <= i < |ps| && ps[i].header.kind == 0xFFFF;
      assert (ps + [p])[i].header.kind == 0xFFFF;
    }
    if p.header.kind == 0xFFFF {
      assert (ps + [p])[|ps|].header.kind == 0xFFFF;
    }
  }

  lemma FirstReplyMore(ps: seq<Pckt>, p: Pckt, i: nat)
    requires FirstReply(ps + [p], i)
    ensures if i < |ps| then FirstReply(ps, i) else i == |ps| && p.header.kind == 0xFFFF && !GotReply(ps)
  {
    assert (ps + [p])[..|ps|] == ps;
    forall j | 0 <= j < |ps| ensures (ps + [p])[j] == ps[j] {}
  }

  lemma AfterReplyMore(ps: seq<Pckt>, p: Pckt, id: u32)
    ensures AfterReply(ps + [p], id) <==>
              AfterReply(ps, id) || (GotReply(ps) && p.header.kind < 0xFFFE && p.header.convId == id)
  {
    var more := ps + [p];
    assert forall j | 0 <= j < |ps| :: more[j] == ps[j];
    if AfterReply(ps, id) {
      var i, j :| 0 <= i < j < |ps| && ps[i].header.kind == 0xFFFF && BelongsTo(ps, j, id);
      assert more[i].header.kind == 0xFFFF && BelongsTo(more, j, id);
    }
    if GotReply(ps) && p.header.kind < 0xFFFE && p.header.convId == id {
      var i :| 0 <= i < |ps| && ps[i].header.kind == 0xFFFF;
      assert more[i].header.kind == 0xFFFF && BelongsTo(more, |ps|, id);
    }
    if AfterReply(more, id) {
      var i, j :| 0 <= i < j < |more| && more[i].header.kind == 0xFFFF && BelongsTo(more, j, id);
      assert ps[i].header.kind == 0xFFFF;
      if j < |ps| {
        assert BelongsTo(ps, j, id);
      }
    }
  }

  // ----- the invariant -----

  /** A client's state is what the packets it has dispatched say. */
  ghost predicate ClientFollows(x: State, ps: seq<Pckt>) {
    && (x.selfId != 0 <==> GotReply(ps))
    && (forall i: nat | FirstReply(ps, i) :: x.selfId == ps[i].header.convId)
    && (forall id :: id in x.conversations <==> AfterReply(ps, id))
  }

  ghost predicate ServerFollows(x: State, ps: seq<Pckt>) {
    forall id :: id in x.conversations <==> exists j :: BelongsTo(ps, j, id)
  }

  /** The replies are for different numbers, the server's own is none of them, and each ping has one. */
  ghost predicate RepliesOk(s: Ids) {
    && s.server.selfId != 0 && s.server.generated == {s.server.selfId} + Given(s.replies)
    && (forall r | r in s.replies :: r.1 != 0 && r.1 != s.server.selfId)
    && (forall q, r | q in s.replies && r in s.replies && q.1 == r.1 :: q == r)
    && |s.replies| == Pings(s.served)
  }

  ghost predicate Inv(s: Ids) {
    && RepliesOk(s) && s.dispatched.Keys == s.clients.Keys
    && ServerFollows(s.server, s.served)
    && (forall a | a in s.clients :: s.clients[a].selfId == 0 || (a, s.clients[a].selfId) in s.replies)
    && (forall a | a in s.clients :: ClientFollows(s.clients[a], s.dispatched[a]))
  }

  lemma ClientDispatches(x: State, ps: seq<Pckt>, p: Pckt, newId: u32)
    requires ClientFollows(x, ps) && (p.header.kind == PING_RES ==> p.header.convId != 0)
    ensures ClientFollows(Dispatch(x, p, newId).0, ps + [p])
  {
    var y := Dispatch(x, p, newId).0;
    ReplyMore(ps, p);
    forall i: nat | FirstReply(ps + [p], i) ensures y.selfId == (ps + [p])[i].header.convId {
      FirstReplyMore(ps, p, i);
    }
    forall id ensures id in y.conversations <==> AfterReply(ps + [p], id) {
      AfterReplyMore(ps, p, id);
    }
  }

  lemma ServerDispatches(x: State, ps: seq<Pckt>, p: Pckt, newId: u32)
    requires ServerFollows(x, ps) && x.selfId != 0
    ensures ServerFollows(Dispatch(x, p, newId).0, ps + [p])
  {
    var y, more := Dispatch(x, p, newId).0, ps + [p];
    forall id ensures id in y.conversations <==> exists j :: BelongsTo(more, j, id) {
      if j :| BelongsTo(ps, j, id) {
        assert BelongsTo(more, j, id);
      }
      if j :| BelongsTo(more, j, id) {
        assert j < |ps| ==> BelongsTo(ps, j, id);
      }
      if p.header.kind < 0xFFFE && p.header.convId == id {
        assert BelongsTo(more, |ps|, id);
      }
    }
  }

  lemma RepliesStep(s: Ids, t: Ids, addr: int, p: Pckt, newId: u32)
    requires RepliesOk(s) && ServerTakes(s, t, addr, p, newId)
    ensures RepliesOk(t)
  {
    assert t.served[..|s.served|] == s.served;
    if p.header.kind == PING_REQ {
      assert (addr, newId) !in s.replies && t.replies == s.replies + {(addr, newId)};
      assert Given(t.replies) == Given(s.replies) + {newId};
    } else {
      assert t.replies == s.replies && t.server.generated == s.server.generated;
    }
  }

  lemma ServerStep(s: Ids, t: Ids, addr: int, p: Pckt, newId: u32)
    requires Inv(s) && ServerTakes(s, t, addr, p, newId)
    ensures Inv(t)
  {
    ServerDispatches(s.server, s.served, p, newId);
    RepliesStep(s, t, addr, p, newId);
    assert t.clients == s.clients && t.dispatched == s.dispatched && s.replies <= t.replies;
  }

  lemma ClientStep(s: Ids, t: Ids, addr: int, p: Pckt, newId: u32)
    requires Inv(s) && ClientTakes(s, t, addr, p, newId)
    ensures Inv(t)
  {
    ClientDispatches(s.clients[addr], s.dispatched[addr], p, newId);
    assert t.server == s.server && t.replies == s.replies && t.served == s.served;
  }

  lemma ReachableInv(s: Ids)
    requires Reachable(s)
    ensures Inv(s)
  {
    forall s | Init(s) ensures Inv(s) {}
    forall s, t | Inv(s) && Next(s, t) ensures Inv(t) {
      if addr, p, newId :| ServerTakes(s, t, addr, p, newId) {
        ServerStep(s, t, addr, p, newId);
      } else {
        var addr, p, newId :| ClientTakes(s, t, addr, p, newId);
        ClientStep(s, t, addr, p, newId);
      }
    }
    Runs.InvariantHolds(Init, Next, Inv, s);
  }

  // ----- what it means -----

  /** In every run the IDs clients have taken on differ from each other, from the server's and from zero. */
  lemma DistinctIds(s: Ids, a: int, b: int)
    requires Reachable(s) && a in s.clients && b in s.clients && s.clients[a].selfId != 0
    ensures s.clients[a].selfId != s.server.selfId && s.server.selfId != 0
    ensures s.clients[a].selfId == s.clients[b].selfId ==> a == b
  {
    ReachableInv(s);
    var q, r := (a, s.clients[a].selfId), (b, s.clients[b].selfId);
    assert q.1 == r.1 ==> q in s.replies && r in s.replies;
  }

  /** In every run a client has an ID if and only if it has dispatched a ping reply, and then it is that of the first;
      it has exactly the conversations of the packets it has dispatched since. */
  lemma ClientExactly(s: Ids, a: int)
    requires Reachable(s) && a in s.clients
    ensures a in s.dispatched && (s.clients[a].selfId != 0 <==> GotReply(s.dispatched[a]))
    ensures forall i: nat | FirstReply(s.dispatched[a], i) :: s.clients[a].selfId == s.dispatched[a][i].header.convId
    ensures forall id :: id in s.clients[a].conversations <==> AfterReply(s.dispatched[a], id)
  {
    ReachableInv(s);
  }

  /** The server has exactly the conversations of the packets it has dispatched, and has answered each ping with a
      number of its own. */
  lemma ServerExactly(s: Ids)
    requires Reachable(s)
    ensures forall id :: id in s.server.conversations <==> exists j :: BelongsTo(s.served, j, id)
    ensures |s.replies| == Pings(s.served)
    ensures forall q, r | q in s.replies && r in s.replies && q.1 == r.1 :: q == r
    ensures s.server.generated == {s.server.selfId} + Given(s.replies)
  {
    ReachableInv(s);
  }

  /** In no run does the server, or a client that has taken one on, change its ID. */
  lemma IdsStay(s: Ids, t: Ids, a: int)
    requires Reachable(s) && Runs.Reaches(Next, s, t) && a in s.clients && s.clients[a].selfId != 0
    ensures a in t.clients && t.clients[a].selfId == s.clients[a].selfId && t.server.selfId == s.server.selfId
  {
    ReachableInv(s);
    var own, id := s.server.selfId, s.clients[a].selfId;
    var stands := x => IdsStand(x, own, a, id);
    forall x, y | stands(x) && Next(x, y) ensures stands(y) {
      IdsStandNext(x, y, own, a, id);
    }
    var n: nat :| Runs.ReachesIn(Next, s, t, n);
    Runs.InductiveAlong(Next, stands, s, t, n);
  }

  ghost predicate IdsStand(s: Ids, own: u32, a: int, id: u32) {
    && s.server.selfId == own && own != 0
    && a in s.clients && s.clients[a].selfId == id && id != 0
  }

  lemma IdsStandNext(s: Ids, t: Ids, own: u32, a: int, id: u32)
    requires IdsStand(s, own, a, id) && Next(s, t)
    ensures IdsStand(t, own, a, id)
  {}

  // ----- an ID is always within reach -----

  /** A reply that was sent to a client without an ID can give it that ID in the next step. */
  lemma ReplyCanArrive(s: Ids, a: int, id: u32) returns (t: Ids)
    requires Reachable(s) && a in s.clients && s.clients[a].selfId == 0 && (a, id) in s.replies
    ensures Next(s, t) && Reachable(t) && a in t.clients && t.clients[a].selfId == id
  {
    ReachableInv(s);
    var p := PingReplyPckt(id);
    t := s.(clients := s.clients[a := Dispatch(s.clients[a], p, 0).0],
            dispatched := s.dispatched[a := s.dispatched[a] + [p]]);
    assert ClientTakes(s, t, a, p, 0);
    Runs.ReachableNext(Init, Next, s, t);
  }

  /** And a ping from it can be answered with any number not given out yet. */
  lemma PingCanBeAnswered(s: Ids, a: int, p: Pckt, id: u32) returns (t: Ids)
    requires Reachable(s) && p.header.kind == 0xFFFE && id != 0 && id !in s.server.generated
    ensures Next(s, t) && Reachable(t) && t.replies == s.replies + {(a, id)} && t.clients == s.clients
  {
    t := s.(server := Dispatch(s.server, p, id).0, served := s.served + [p], replies := s.replies + {(a, id)});
    assert ServerTakes(s, t, a, p, id);
    Runs.ReachableNext(Init, Next, s, t);
  }
}
