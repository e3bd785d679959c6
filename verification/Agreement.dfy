/** Agreement between the server and the clients on one VoteID, for as long as it is set up only once. */
module Agreement {
  import opened Bytes
  import opened Pip
  import opened Messages
  import opened Referendum
  import opened Consensus
  import Runs

  predicate IsResult(m: Msg, v: VoteId) {
    m.AnnounceResult? && m.voteId == v
  }

  /** How many result packets for `v` have been queued. */
  function CountResults(log: seq<Msg>, v: VoteId): nat {
    if log == [] then 0
    else CountResults(log[..|log| - 1], v) + (if IsResult(log[|log| - 1], v) then 1 else 0)
  }

  lemma CountPush(log: seq<Msg>, m: Msg, v: VoteId)
    ensures CountResults(Push(log, m), v) == CountResults(log, v) + (if IsResult(m, v) then 1 else 0)
  {}

  lemma {:induction false} CountPositive(log: seq<Msg>, m: Msg, v: VoteId)
    requires m in log && IsResult(m, v)
    ensures CountResults(log, v) > 0
  {
    if log[|log| - 1] != m {
      CountPositive(log[..|log| - 1], m, v);
    }
  }

  ghost predicate Closed(s: Sys, v: VoteId) {
    v in s.server.host && !s.server.host[v].ongoing
  }

  ghost predicate Complete(s: Sys, c: u32, v: VoteId) {
    c in s.clients && v in s.clients[c].guest && s.clients[c].guest[v].complete
  }

  /** Results queued for a client: at most one per time the VoteID was set up, none yet for the current time if open. */
  ghost predicate CountOk(s: Sys, v: VoteId) {
    && (v in s.server.host <==> Created(s, v) > 0)
    && (forall c | c in s.down ::
          CountResults(s.down[c], v) + (if v in s.server.host && s.server.host[v].ongoing then 1 else 0)
          <= Created(s, v))
    && (forall c | Complete(s, c, v) :: Created(s, v) > 0)
  }

  /** What holds of a VoteID that has been set up once. */
  ghost predicate OnceOk(s: Sys, v: VoteId)
    requires v in s.server.host
  {
    var h := s.server.host[v];
    && (forall c, r | Queued(s.down, c, AnnounceResult(v, r)) :: !h.ongoing && r == h.result)
    && (forall c | c in s.down :: CountResults(s.down[c], v) == if !h.ongoing && c in h.participants then 1 else 0)
    && (forall c | Complete(s, c, v) :: !h.ongoing && s.clients[c].guest[v].result == h.result)
  }

  ghost predicate AgreeOk(s: Sys, v: VoteId) {
    CountOk(s, v) && (Created(s, v) == 1 ==> OnceOk(s, v))
  }

  lemma PushAllCounts(logs: map<u32, seq<Msg>>, sends: map<u32, Msg>, v: VoteId)
    ensures PushAll(logs, sends).Keys == logs.Keys
    ensures forall c | c in logs :: CountResults(PushAll(logs, sends)[c], v)
                                 == CountResults(logs[c], v) + (if c in sends && IsResult(sends[c], v) then 1 else 0)
  {
    forall c | c in logs && c in sends
      ensures CountResults(PushAll(logs, sends)[c], v)
           == CountResults(logs[c], v) + (if IsResult(sends[c], v) then 1 else 0)
    {
      CountPush(logs[c], sends[c], v);
    }
  }

  /** The view of `v` that agreement is about did not change between `s` and `t`. */
  ghost predicate SameView(s: Sys, t: Sys, v: VoteId) {
    && Created(t, v) == Created(s, v)
    && (v in t.server.host <==> v in s.server.host)
    && (v in s.server.host ==>
          && t.server.host[v].ongoing == s.server.host[v].ongoing
          && t.server.host[v].participants == s.server.host[v].participants
          && t.server.host[v].result == s.server.host[v].result)
    && t.down.Keys == s.down.Keys
    && (forall c | c in s.down :: CountResults(t.down[c], v) == CountResults(s.down[c], v))
    && (forall c, r | Queued(t.down, c, AnnounceResult(v, r)) :: Queued(s.down, c, AnnounceResult(v, r)))
    && (forall c | Complete(t, c, v) ::
          Complete(s, c, v) && t.clients[c].guest[v].result == s.clients[c].guest[v].result)
  }

  lemma SameViewKeeps(s: Sys, t: Sys, v: VoteId)
    requires AgreeOk(s, v) && SameView(s, t, v)
    ensures AgreeOk(t, v)
  {}

  /** Queueing messages that are not results for `v` does not change the view. */
  lemma OtherSends(s: Sys, t: Sys, sends: map<u32, Msg>, v: VoteId)
    requires t.down == PushAll(s.down, sends) && forall c | c in sends :: !IsResult(sends[c], v)
    requires t.clients == s.clients && Created(t, v) == Created(s, v)
    requires v in t.server.host <==> v in s.server.host
    requires v in s.server.host ==>
               && t.server.host[v].ongoing == s.server.host[v].ongoing
               && t.server.host[v].participants == s.server.host[v].participants
               && t.server.host[v].result == s.server.host[v].result
    ensures SameView(s, t, v)
  {
    PushAllCounts(s.down, sends, v);
    PushAllQueued(s.down, sends);
  }

  lemma AgreeServer(s: Sys, c: u32, m: Msg, ch: Choice, v: VoteId)
    requires Shape(s) && AgreeOk(s, v) && Enabled(s, ServerHandles(c, m, ch))
    ensures AgreeOk(ServerStep(s, c, m, ch), v)
  {
    assert FromClient(m);
    if m.RequestVote? && m.voteId == v {
      AgreeSetUp(s, c, m.question, ch, v);
    } else if m.CastVote? && m.voteId == v && v in s.server.host && Closes(s.server.host[v], c, m.response) {
      AgreeCloses(s, c, m.response, ch, v);
    } else {
      AgreeQuiet(s, c, m, ch, v);
    }
  }

  lemma AgreeSetUp(s: Sys, c: u32, q: bytes, ch: Choice, v: VoteId)
    requires NodeOk(s.server) && AgreeOk(s, v)
    ensures AgreeOk(ServerStep(s, c, RequestVote(v, q), ch), v)
  {
    PushAllCounts(s.down, Sends(s.server, c, RequestVote(v, q), ch), v);
    SetUp(s, ServerStep(s, c, RequestVote(v, q), ch), v);
  }

  lemma AgreeCloses(s: Sys, c: u32, r: u16, ch: Choice, v: VoteId)
    requires NodeOk(s.server) && AgreeOk(s, v) && v in s.server.host && Closes(s.server.host[v], c, r)
    ensures AgreeOk(ServerStep(s, c, CastVote(v, r), ch), v)
  {
    var t, sends := ServerStep(s, c, CastVote(v, r), ch), Sends(s.server, c, CastVote(v, r), ch);
    assert t.server.host[v] == Record(s.server.host[v], c, r).(ongoing := false, result := ch.winner);
    PushAllCounts(s.down, sends, v);
    PushAllQueued(s.down, sends);
    Closing(s, t, v, ch.winner);
  }

  lemma AgreeQuiet(s: Sys, c: u32, m: Msg, ch: Choice, v: VoteId)
    requires NodeOk(s.server) && AgreeOk(s, v) && FromClient(m) && !(m.RequestVote? && m.voteId == v)
    requires !(m.CastVote? && m.voteId == v && v in s.server.host && Closes(s.server.host[v], c, m.response))
    ensures AgreeOk(ServerStep(s, c, m, ch), v)
  {
    var t, sends := ServerStep(s, c, m, ch), Sends(s.server, c, m, ch);
    OtherSends(s, t, sends, v);
    SameViewKeeps(s, t, v);
  }

  /** The VoteID is set up, for the first time or again. */
  lemma SetUp(s: Sys, t: Sys, v: VoteId)
    requires AgreeOk(s, v) && t.clients == s.clients && Created(t, v) == Created(s, v) + 1
    requires v in t.server.host && t.server.host[v].ongoing
    requires t.down.Keys == s.down.Keys
    requires forall c | c in s.down :: CountResults(t.down[c], v) == CountResults(s.down[c], v)
    ensures AgreeOk(t, v)
  {
    assert forall c | Complete(t, c, v) :: Complete(s, c, v);
    forall c, r | Queued(t.down, c, AnnounceResult(v, r)) ensures Created(s, v) > 0 {
      CountPositive(t.down[c], AnnounceResult(v, r), v);
    }
  }

  /** The referendum is closed and every participant gets one result packet. */
  lemma Closing(s: Sys, t: Sys, v: VoteId, winner: u16)
    requires AgreeOk(s, v) && t.clients == s.clients && Created(t, v) == Created(s, v)
    requires v in s.server.host && s.server.host[v].ongoing && v in t.server.host
    requires !t.server.host[v].ongoing && t.server.host[v].result == winner
    requires t.server.host[v].participants == s.server.host[v].participants
    requires t.down.Keys == s.down.Keys
    requires forall c | c in s.down :: CountResults(t.down[c], v)
                                    == CountResults(s.down[c], v) + if c in s.server.host[v].participants then 1 else 0
    requires forall c, r | Queued(t.down, c, AnnounceResult(v, r)) ::
               Queued(s.down, c, AnnounceResult(v, r)) || r == winner
    ensures AgreeOk(t, v)
  {}

  lemma AgreeClient(s: Sys, c: u32, m: Msg, ch: Choice, v: VoteId)
    requires Shape(s) && AgreeOk(s, v) && Enabled(s, ClientHandles(c, m, ch))
    ensures AgreeOk(ClientStep(s, c, m, ch), v)
  {
    assert FromServer(m);
    var t := ClientStep(s, c, m, ch);
    if IsResult(m, v) && v in s.clients[c].guest && !s.clients[c].guest[v].complete {
      CountPositive(s.down[c], m, v);
      Completes(s, t, c, v, m.response);
    } else {
      assert forall d | Complete(t, d, v) :: Complete(s, d, v) && t.clients[d].guest[v] == s.clients[d].guest[v];
      SameViewKeeps(s, t, v);
    }
  }

  /** A client that knows the referendum takes the result over. */
  lemma Completes(s: Sys, t: Sys, c: u32, v: VoteId, r: u16)
    requires AgreeOk(s, v) && Queued(s.down, c, AnnounceResult(v, r)) && CountResults(s.down[c], v) > 0
    requires t.server == s.server && t.down == s.down && t.created == s.created
    requires c in s.clients && v in s.clients[c].guest
    requires t.clients == s.clients[c := s.clients[c].(guest :=
               s.clients[c].guest[v := s.clients[c].guest[v].(result := r, complete := true)])]
    ensures AgreeOk(t, v)
  {}

  lemma AgreeStep(s: Sys, act: Action, v: VoteId)
    requires Shape(s) && AgreeOk(s, v) && Enabled(s, act)
    ensures AgreeOk(Apply(s, act), v)
  {
    match act {
      case ServerHandles(c, m, ch) => AgreeServer(s, c, m, ch, v);
      case ClientHandles(c, m, ch) => AgreeClient(s, c, m, ch, v);
      case ServerGreets(c, f) => AgreeGreets(s, c, f, v);
      case _ => SameViewKeeps(s, Apply(s, act), v);
    }
  }

  lemma AgreeGreets(s: Sys, c: u32, f: seq<u16>, v: VoteId)
    requires AgreeOk(s, v) && c in s.down
    ensures AgreeOk(s.(down := PushTo(s.down, c, Greet(f))), v)
  {
    CountPush(s.down[c], Greet(f), v);
    PushToQueued(s.down, c, Greet(f));
    SameViewKeeps(s, s.(down := PushTo(s.down, c, Greet(f))), v);
  }

  // ----- the invariant of all runs -----

  ghost predicate Inv(s: Sys) {
    && Shape(s) && ClientsOk(s) && OriginOk(s)
    && (forall v :: TallyOk(s, v))
    && (forall v :: AgreeOk(s, v))
  }

  lemma InitInv(s: Sys)
    requires Init(s)
    ensures Inv(s)
  {}

  lemma StepInv(s: Sys, act: Action)
    requires Inv(s) && Enabled(s, act)
    ensures Inv(Apply(s, act))
  {
    ShapeStep(s, act);
    OriginStep(s, act);
    forall c ensures ClientOk(Apply(s, act), c) {
      ClientsStep(s, act, c);
    }
    forall v ensures TallyOk(Apply(s, act), v) && AgreeOk(Apply(s, act), v) {
      TallyStep(s, act, v);
      AgreeStep(s, act, v);
    }
  }

  lemma ReachableInv(s: Sys)
    requires Reachable(s)
    ensures Inv(s)
  {
    forall s | Init(s) ensures Inv(s) {
      InitInv(s);
    }
    forall s, t | Inv(s) && Next(s, t) ensures Inv(t) {
      NextInv(s, t);
    }
    Runs.InvariantHolds(Init, Next, Inv, s);
  }

  lemma NextInv(s: Sys, t: Sys)
    requires Inv(s) && Next(s, t)
    ensures Inv(t)
  {
    var act :| Enabled(s, act) && t == Apply(s, act);
    StepInv(s, act);
  }
}
