/** Runs in which the protocol does less than one might hope: a request that is handled twice splits the clients, so
    agreement holds exactly up to one set-up; and a client that handles the result before the question stays behind. */
module Disagreement {
  import opened Bytes
  import opened Pip
  import opened Messages
  import opened Referendum
  import opened Consensus
  import opened Agreement
  import ConsensusTheorems
  import Runs

  ghost predicate Agrees(s: Sys, v: VoteId) {
    forall c, d | Complete(s, c, v) && Complete(s, d, v) :: s.clients[c].guest[v].result == s.clients[d].guest[v].result
  }

  /** Exactly the clients `peers` are eligible; the answer computed, and the option iterated last, is `r`. */
  function ChoiceOf(peers: set<u32>, r: u16): Choice {
    Choice(map c | c in peers :: Peer([SIMPLE_EVAL], true), r, r, [])
  }

  ghost predicate Fresh(s: Sys, c: u32, v: VoteId) {
    c in s.clients && v !in s.clients[c].guest
  }

  lemma InOrder(s: Sys)
    requires Reachable(s)
    ensures NodeOk(s.server) && (forall c | c in s.clients :: NodeOk(s.clients[c]))
    ensures s.up.Keys == s.down.Keys == s.clients.Keys
  {
    ReachableInv(s);
  }

  /** The question fits into a packet. */
  predicate Short(q: bytes) {
    |q| <= MAX_PCKT_SIZE - 22
  }

  /** A request that fits makes everything that follows from it fit. */
  lemma AllFit(v: VoteId, q: bytes, r: u16)
    requires Short(q)
    ensures Fits(RequestVote(v, q)) && Fits(AskQuestion(v, q)) && Fits(CastVote(v, r)) && Fits(AnnounceResult(v, r))
  {
    WhatFits(v, q, r);
  }

  lemma SetUpEffect(s: Sys, v: VoteId, q: bytes, peers: set<u32>, r: u16)
    requires NodeOk(s.server) && peers <= s.down.Keys && Short(q)
    ensures var t := ServerStep(s, 1, RequestVote(v, q), ChoiceOf(peers, r));
      && Created(t, v) == Created(s, v) + 1 && v in t.server.host && t.server.host[v] == NewHost(q, peers)
      && t.down.Keys == s.down.Keys
      && (forall d | d in s.down :: t.down[d] == s.down[d] + (if d in peers then [AskQuestion(v, q)] else []))
  {
    AllFit(v, q, r);
    assert EligiblePeers(ChoiceOf(peers, r).known) == peers;
  }

  /** The server handles the request and asks the clients `peers`. */
  lemma SetUpFor(s: Sys, v: VoteId, q: bytes, peers: set<u32>, r: u16) returns (t: Sys)
    requires Reachable(s) && peers <= s.clients.Keys && Queued(s.up, 1, RequestVote(v, q)) && Short(q)
    ensures Reachable(t) && t.clients == s.clients && t.up == s.up && t.serverId == s.serverId && t.told == s.told
    ensures Created(t, v) == Created(s, v) + 1 && v in t.server.host && t.server.host[v] == NewHost(q, peers)
    ensures t.down.Keys == s.down.Keys
    ensures forall d | d in s.down :: t.down[d] == s.down[d] + (if d in peers then [AskQuestion(v, q)] else [])
  {
    InOrder(s);
    var act := ServerHandles(1, RequestVote(v, q), ChoiceOf(peers, r));
    assert Enabled(s, act);
    Take(s, act);
    SetUpEffect(s, v, q, peers, r);
    t := Apply(s, act);
  }

  /** Client `c` has nothing new but its answer `r` to `v`. */
  ghost predicate OnlyAnswered(s: Sys, t: Sys, v: VoteId, q: bytes, c: u32, r: u16) {
    && t.server == s.server && t.serverId == s.serverId && t.created == s.created && t.down == s.down
    && t.clients.Keys == s.clients.Keys && (forall d | d in s.clients && d != c :: t.clients[d] == s.clients[d])
    && c in t.clients && v in t.clients[c].guest && t.clients[c].guest[v] == ClientRef(q, r, false)
    && t.up == Handled(s.up, c, CastVote(v, r)) && Queued(t.up, c, CastVote(v, r))
    && t.told == Handled(s.told, c, AskQuestion(v, q))
  }

  lemma AnswerEffect(s: Sys, v: VoteId, q: bytes, c: u32, r: u16)
    requires Fresh(s, c, v) && c in s.up && NodeOk(s.clients[c]) && Short(q)
    ensures OnlyAnswered(s, ClientStep(s, c, AskQuestion(v, q), ChoiceOf({s.serverId}, r)), v, q, c, r)
  {
    AllFit(v, q, r);
  }

  /** Client `c` answers `r`. */
  lemma AnswerFrom(s: Sys, v: VoteId, q: bytes, c: u32, r: u16) returns (t: Sys)
    requires Reachable(s) && Fresh(s, c, v) && Queued(s.down, c, AskQuestion(v, q)) && Short(q)
    ensures Reachable(t) && OnlyAnswered(s, t, v, q, c, r)
  {
    InOrder(s);
    var act := ClientHandles(c, AskQuestion(v, q), ChoiceOf({s.serverId}, r));
    assert Enabled(s, act);
    Take(s, act);
    AnswerEffect(s, v, q, c, r);
    t := Apply(s, act);
  }

  /** The server has counted client `c`, and nothing else has happened to the clients. */
  ghost predicate OnlyCounted(s: Sys, t: Sys) {
    && t.clients == s.clients && t.up == s.up && t.serverId == s.serverId && t.told == s.told && t.created == s.created
    && t.down.Keys == s.down.Keys
  }

  /** One answer that leaves the referendum open. */
  lemma CountVote(s: Sys, v: VoteId, c: u32, r: u16) returns (t: Sys)
    requires Reachable(s) && c in s.clients && v in s.server.host && WhoOk(s.server.host[v])
    requires Admits(s.server.host[v], c) && !Closes(s.server.host[v], c, r) && Queued(s.up, c, CastVote(v, r))
    ensures Reachable(t) && OnlyCounted(s, t) && (forall d | d in s.down :: t.down[d] == s.down[d])
    ensures v in t.server.host && t.server.host[v] == Record(s.server.host[v], c, r)
  {
    InOrder(s);
    var act := ServerHandles(c, CastVote(v, r), ChoiceOf({}, r));
    assert Enabled(s, act);
    Take(s, act);
    t := Apply(s, act);
  }

  /** One answer that closes it; every participant is told. */
  lemma CloseVote(s: Sys, v: VoteId, c: u32, r: u16) returns (t: Sys)
    requires Reachable(s) && c in s.clients && v in s.server.host && WhoOk(s.server.host[v])
    requires MayAnnounce(s.server.host[v], c, r, r) && Queued(s.up, c, CastVote(v, r))
    ensures Reachable(t) && OnlyCounted(s, t)
    ensures v in t.server.host && t.server.host[v] == Record(s.server.host[v], c, r).(ongoing := false, result := r)
    ensures forall d | d in s.down ::
              t.down[d] == s.down[d] + (if d in s.server.host[v].participants then [AnnounceResult(v, r)] else [])
  {
    InOrder(s);
    var act := ServerHandles(c, CastVote(v, r), ChoiceOf({}, r));
    assert Closes(s.server.host[v], c, r);
    assert Enabled(s, act);
    Take(s, act);
    WhatFits(v, [], r);
    t := Apply(s, act);
  }

  /** Client `c` handles the result. */
  lemma Learn(s: Sys, v: VoteId, c: u32, r: u16) returns (t: Sys)
    requires Reachable(s) && c in s.clients && Queued(s.down, c, AnnounceResult(v, r))
    ensures Reachable(t) && t.serverId == s.serverId && t.up == s.up && t.down == s.down && t.server == s.server
    ensures t.created == s.created && t.told == Handled(s.told, c, AnnounceResult(v, r))
    ensures t.clients.Keys == s.clients.Keys && (forall d | d in s.clients && d != c :: t.clients[d] == s.clients[d])
    ensures t.clients[c] == Announced(s.clients[c], v, r)
  {
    InOrder(s);
    var ch := ChoiceOf({s.serverId}, r);
    t := ClientStep(s, c, AnnounceResult(v, r), ch);
    assert Enabled(s, ClientHandles(c, AnnounceResult(v, r), ch));
    Take(s, ClientHandles(c, AnnounceResult(v, r), ch));
  }

  // ----- three clients, of which two decide -----

  /** The first of two equal answers leaves a referendum of three open, the second closes it. */
  lemma TwoAnswersClose(h: HostRef, q: bytes, c: u32, d: u32, r: u16)
    requires h == NewHost(q, {1, 2, 3}) && {c, d} <= {1, 2, 3} && c != d
    ensures WhoOk(h) && Admits(h, c) && !Closes(h, c, r)
    ensures WhoOk(Record(h, c, r)) && MayAnnounce(Record(h, c, r), d, r, r)
    ensures Record(Record(h, c, r), d, r).who == {c, d}
  {
    OneOfThree(Record(h, c, r), c, r);
    TwoOfThree(Record(Record(h, c, r), d, r), c, d, r);
  }

  lemma OneOfThree(h: HostRef, c: u32, r: u16)
    requires h.participants == {1, 2, 3} && h.who == {c} <= {1, 2, 3} && h.votes == map[r := 1]
    ensures !AnyCallable(h)
  {
    assert |h.who| == 1 && Missing(h) == 2;
  }

  lemma TwoOfThree(h: HostRef, c: u32, d: u32, r: u16)
    requires h.participants == {1, 2, 3} && h.who == {c, d} <= {1, 2, 3} && c != d && r in h.votes && h.votes[r] == 2
    ensures Callable(h, r)
  {
    assert |h.who| == 2 && Missing(h) == 1;
  }

  /** What a set-up for three clients leaves behind when `c` and `d` have answered `r` and thereby closed it. */
  ghost predicate Decided(s: Sys, t: Sys, v: VoteId, q: bytes, c: u32, d: u32, r: u16) {
    && t.serverId == s.serverId && t.clients.Keys == s.clients.Keys && t.down.Keys == s.down.Keys
    && Created(t, v) == Created(s, v) + 1 && Closed(t, v) && t.server.host[v].result == r
    && t.server.host[v].participants == {1, 2, 3} && t.server.host[v].who == {c, d}
    && (forall e | e in s.clients && e != c && e != d :: t.clients[e] == s.clients[e])
    && (forall e | e in {c, d} ::
          e in t.clients && v in t.clients[e].guest && t.clients[e].guest[v] == ClientRef(q, r, false))
    && (forall e | e in {1, 2, 3} && e in s.down ::
          e in t.down && t.down[e] == s.down[e] + [AskQuestion(v, q), AnnounceResult(v, r)])
    && t.up == Handled(Handled(s.up, c, CastVote(v, r)), d, CastVote(v, r))
    && t.told == Handled(Handled(s.told, c, AskQuestion(v, q)), d, AskQuestion(v, q))
  }

  lemma AskBoth(s: Sys, v: VoteId, q: bytes, c: u32, d: u32, r: u16) returns (t: Sys)
    requires Reachable(s) && s.clients.Keys == {1, 2, 3} && c in {1, 2, 3} && d in {1, 2, 3} && c != d
    requires Fresh(s, c, v) && Fresh(s, d, v) && Queued(s.up, 1, RequestVote(v, q)) && Short(q)
    ensures Reachable(t) && BothAnswered(s, t, v, q, c, d, r)
  {
    InOrder(s);
    var s1 := SetUpFor(s, v, q, {1, 2, 3}, r);
    assert Queued(s1.down, c, AskQuestion(v, q)) && Queued(s1.down, d, AskQuestion(v, q));
    t := AnswerBoth(s1, v, q, c, d, r);
  }

  lemma AnswerBoth(s: Sys, v: VoteId, q: bytes, c: u32, d: u32, r: u16) returns (t: Sys)
    requires Reachable(s) && Fresh(s, c, v) && Fresh(s, d, v) && c != d && Short(q)
    requires Queued(s.down, c, AskQuestion(v, q)) && Queued(s.down, d, AskQuestion(v, q))
    ensures Reachable(t) && OnlyBothAnswered(s, t, v, q, c, d, r)
  {
    var m := AnswerFrom(s, v, q, c, r);
    t := AnswerFrom(m, v, q, d, r);
    TwoAnswers(s, m, t, v, q, c, d, r);
  }

  ghost predicate OnlyBothAnswered(s: Sys, t: Sys, v: VoteId, q: bytes, c: u32, d: u32, r: u16) {
    && t.server == s.server && t.serverId == s.serverId && t.created == s.created && t.down == s.down
    && t.clients.Keys == s.clients.Keys
    && (forall e | e in s.clients && e != c && e != d :: t.clients[e] == s.clients[e])
    && (forall e | e in {c, d} ::
          e in t.clients && v in t.clients[e].guest && t.clients[e].guest[v] == ClientRef(q, r, false))
    && t.up == Handled(Handled(s.up, c, CastVote(v, r)), d, CastVote(v, r))
    && Queued(t.up, c, CastVote(v, r)) && Queued(t.up, d, CastVote(v, r))
    && t.told == Handled(Handled(s.told, c, AskQuestion(v, q)), d, AskQuestion(v, q))
  }

  lemma TwoAnswers(s: Sys, m: Sys, t: Sys, v: VoteId, q: bytes, c: u32, d: u32, r: u16)
    requires OnlyAnswered(s, m, v, q, c, r) && OnlyAnswered(m, t, v, q, d, r) && c != d
    ensures OnlyBothAnswered(s, t, v, q, c, d, r)
  {}

  ghost predicate BothAnswered(s: Sys, t: Sys, v: VoteId, q: bytes, c: u32, d: u32, r: u16) {
    && t.serverId == s.serverId && t.clients.Keys == s.clients.Keys && t.down.Keys == s.down.Keys
    && Created(t, v) == Created(s, v) + 1 && v in t.server.host && t.server.host[v] == NewHost(q, {1, 2, 3})
    && (forall e | e in s.clients && e != c && e != d :: t.clients[e] == s.clients[e])
    && (forall e | e in {c, d} ::
          e in t.clients && v in t.clients[e].guest && t.clients[e].guest[v] == ClientRef(q, r, false))
    && (forall e | e in {1, 2, 3} && e in s.down :: t.down[e] == s.down[e] + [AskQuestion(v, q)])
    && t.up == Handled(Handled(s.up, c, CastVote(v, r)), d, CastVote(v, r))
    && Queued(t.up, c, CastVote(v, r)) && Queued(t.up, d, CastVote(v, r))
    && t.told == Handled(Handled(s.told, c, AskQuestion(v, q)), d, AskQuestion(v, q))
  }

  lemma CountBoth(s: Sys, v: VoteId, q: bytes, c: u32, d: u32, r: u16) returns (t: Sys)
    requires Reachable(s) && c in s.clients && d in s.clients && c in {1, 2, 3} && d in {1, 2, 3} && c != d
    requires v in s.server.host && s.server.host[v] == NewHost(q, {1, 2, 3})
    requires Queued(s.up, c, CastVote(v, r)) && Queued(s.up, d, CastVote(v, r))
    ensures Reachable(t) && OnlyCounted(s, t)
    ensures Closed(t, v) && t.server.host[v].result == r
    ensures t.server.host[v].participants == {1, 2, 3} && t.server.host[v].who == {c, d}
    ensures forall e | e in s.down && e in {1, 2, 3} :: t.down[e] == s.down[e] + [AnnounceResult(v, r)]
  {
    TwoAnswersClose(s.server.host[v], q, c, d, r);
    t := CountTwo(s, v, c, d, r);
  }

  lemma CountTwo(s: Sys, v: VoteId, c: u32, d: u32, r: u16) returns (t: Sys)
    requires Reachable(s) && c in s.clients && d in s.clients && v in s.server.host && WhoOk(s.server.host[v])
    requires Admits(s.server.host[v], c) && !Closes(s.server.host[v], c, r) && WhoOk(Record(s.server.host[v], c, r))
    requires MayAnnounce(Record(s.server.host[v], c, r), d, r, r)
    requires Queued(s.up, c, CastVote(v, r)) && Queued(s.up, d, CastVote(v, r))
    ensures Reachable(t) && OnlyCounted(s, t) && Closed(t, v)
    ensures t.server.host[v] == Record(Record(s.server.host[v], c, r), d, r).(ongoing := false, result := r)
    ensures forall e | e in s.down && e in s.server.host[v].participants ::
              t.down[e] == s.down[e] + [AnnounceResult(v, r)]
  {
    var m := CountVote(s, v, c, r);
    t := CloseVote(m, v, d, r);
  }

  lemma Decide(s: Sys, v: VoteId, q: bytes, c: u32, d: u32, r: u16) returns (t: Sys)
    requires Reachable(s) && s.clients.Keys == {1, 2, 3} && c in {1, 2, 3} && d in {1, 2, 3} && c != d
    requires Fresh(s, c, v) && Fresh(s, d, v) && Queued(s.up, 1, RequestVote(v, q)) && Short(q)
    ensures Reachable(t) && Decided(s, t, v, q, c, d, r)
  {
    var m := AskBoth(s, v, q, c, d, r);
    t := CountBoth(m, v, q, c, d, r);
    forall e | e in {1, 2, 3} && e in s.down
      ensures t.down[e] == s.down[e] + [AskQuestion(v, q), AnnounceResult(v, r)]
    {
      assert t.down[e] == m.down[e] + [AnnounceResult(v, r)];
    }
  }

  // ----- one client alone -----

  lemma SoleVoteCloses(q: bytes, c: u32, r: u16)
    ensures MayAnnounce(NewHost(q, {c}), c, r, r)
  {
    var h1 := Record(NewHost(q, {c}), c, r);
    assert h1.who == {c} && Missing(h1) == 0;
    assert Callable(h1, r);
  }

  lemma SoloClose(s: Sys, v: VoteId, q: bytes, c: u32, r: u16) returns (t: Sys)
    requires Reachable(s) && c in s.clients && v in s.server.host && s.server.host[v] == NewHost(q, {c})
    requires Queued(s.up, c, CastVote(v, r))
    ensures Reachable(t) && OnlyCounted(s, t) && Queued(t.down, c, AnnounceResult(v, r))
    ensures forall d | d in s.down :: |t.down[d]| <= |s.down[d]| + 1
  {
    InOrder(s);
    SoleVoteCloses(q, c, r);
    t := CloseVote(s, v, c, r);
    assert t.down[c][|s.down[c]|] == AnnounceResult(v, r);
  }

  lemma SoloAsk(s: Sys, v: VoteId, q: bytes, c: u32, r: u16) returns (t: Sys)
    requires Reachable(s) && Fresh(s, c, v) && Queued(s.up, 1, RequestVote(v, q)) && Short(q)
    ensures Reachable(t) && t.up == Handled(s.up, c, CastVote(v, r)) && Created(t, v) == Created(s, v) + 1
    ensures v in t.server.host && t.server.host[v] == NewHost(q, {c}) && Queued(t.up, c, CastVote(v, r))
    ensures t.clients.Keys == s.clients.Keys && (forall d | d in s.clients && d != c :: t.clients[d] == s.clients[d])
    ensures v in t.clients[c].guest && !t.clients[c].guest[v].complete && t.serverId == s.serverId
    ensures t.down.Keys == s.down.Keys && (forall d | d in s.down :: |t.down[d]| <= |s.down[d]| + 1)
  {
    InOrder(s);
    var m := SetUpFor(s, v, q, {c}, r);
    assert m.down[c][|s.down[c]|] == AskQuestion(v, q);
    t := AnswerFrom(m, v, q, c, r);
  }

  /** A set-up that knows only client `c`: it answers `r` and holds it, and nobody else has noticed. */
  lemma SoloRound(s: Sys, v: VoteId, q: bytes, c: u32, r: u16) returns (t: Sys)
    requires Reachable(s) && Fresh(s, c, v) && Queued(s.up, 1, RequestVote(v, q)) && Short(q)
    ensures Reachable(t) && t.up == Handled(s.up, c, CastVote(v, r)) && Created(t, v) == Created(s, v) + 1
    ensures Complete(t, c, v) && t.clients[c].guest[v].result == r && t.serverId == s.serverId
    ensures t.clients.Keys == s.clients.Keys && (forall d | d in s.clients && d != c :: t.clients[d] == s.clients[d])
    ensures t.down.Keys == s.down.Keys && (forall d | d in s.down :: |t.down[d]| <= |s.down[d]| + 2)
  {
    var s1 := SoloAsk(s, v, q, c, r);
    var s2 := SoloClose(s1, v, q, c, r);
    t := Learn(s2, v, c, r);
  }

  // ----- the runs -----

  function ThreeClients(): Sys {
    var logs: map<u32, seq<Msg>> := map[1 := [], 2 := [], 3 := []];
    Sys(9, NewNode(), map[1 := NewNode(), 2 := NewNode(), 3 := NewNode()], logs, logs, map[], map[], map[],
        logs, logs)
  }

  lemma ThreeClientsInit()
    ensures Reachable(ThreeClients())
  {
    assert Init(ThreeClients());
    Runs.ReachesSelf(Next, ThreeClients());
  }

  /** Client 1 asks `q`; nothing else has happened. */
  lemma RequestOnly(v: VoteId, q: bytes) returns (t: Sys)
    requires Short(q)
    ensures Reachable(t) && Created(t, v) == 0 && Fresh(t, 1, v) && Fresh(t, 2, v) && Fresh(t, 3, v)
    ensures t.up == Handled(ThreeClients().up, 1, RequestVote(v, q)) && t == ThreeClients().(up := t.up)
  {
    ThreeClientsInit();
    AllFit(v, q, 0);
    var act := ClientRequests(1, v, q);
    t := Apply(ThreeClients(), act);
    Take(ThreeClients(), act);
  }

  /** The clients have queued nothing but one request and then one vote each. */
  ghost predicate OneRequestAndVotes(s: Sys, v: VoteId, q: bytes, r1: u16, r2: u16, r3: u16) {
    && s.up.Keys == s.down.Keys == {1, 2, 3}
    && s.up[1] == [RequestVote(v, q), CastVote(v, r1)] && s.up[2] == [CastVote(v, r2)] && s.up[3] == [CastVote(v, r3)]
    && |s.down[1]| <= 4 && |s.down[2]| <= 4 && |s.down[3]| <= 4
  }

  lemma Pushed(v: VoteId, q: bytes, up: map<u32, seq<Msg>>, r1: u16, r2: u16, r3: u16)
    requires Short(q)
    requires up == Handled(Handled(Handled(Handled(ThreeClients().up, 1, RequestVote(v, q)),
                                        1, CastVote(v, r1)), 2, CastVote(v, r2)), 3, CastVote(v, r3))
    ensures up.Keys == {1, 2, 3}
    ensures up[1] == [RequestVote(v, q), CastVote(v, r1)] && up[2] == [CastVote(v, r2)] && up[3] == [CastVote(v, r3)]
  {
    var up1 := Handled(Handled(ThreeClients().up, 1, RequestVote(v, q)), 1, CastVote(v, r1));
    assert up1[1] == [RequestVote(v, q), CastVote(v, r1)];
  }

  /** One request, handled twice: client 1, alone at first, ends up with SAT; then all three are asked and clients 2
      and 3 with UNSAT decide. `q` stands for a question that evaluates; the answers differ because some clients flip
      their own. */
  lemma TwoSetUpsDisagree(v: VoteId, q: bytes) returns (t: Sys)
    requires Short(q)
    ensures Reachable(t) && Created(t, v) == 2 && OneRequestAndVotes(t, v, q, SAT, UNSAT, UNSAT)
    ensures Complete(t, 1, v) && t.clients[1].guest[v].result == SAT
    ensures Complete(t, 2, v) && t.clients[2].guest[v].result == UNSAT
  {
    var s := RequestOnly(v, q);
    assert Queued(s.up, 1, RequestVote(v, q));
    var s1 := SoloRound(s, v, q, 1, SAT);
    assert Queued(s1.up, 1, RequestVote(v, q));
    var s2 := Decide(s1, v, q, 2, 3, UNSAT);
    InOrder(s1);
    assert s2.down[2][|s1.down[2]| + 1] == AnnounceResult(v, UNSAT);
    t := Learn(s2, v, 2, UNSAT);
    Pushed(v, q, t.up, SAT, UNSAT, UNSAT);
  }

  /** What has reached client 3, and what it has made of it. */
  ghost predicate LeftBehind(s: Sys, v: VoteId, q: bytes) {
    && 3 in s.clients && 3 in s.told && 3 in s.down
    && s.told[3] == [AnnounceResult(v, SAT), AskQuestion(v, q)]
    && s.down[3] == [AskQuestion(v, q), AnnounceResult(v, SAT)]
    && v in s.clients[3].guest && s.clients[3].guest[v] == ClientRef(q, UNSAT, false)
  }

  /** Client 3 handles the result first and the question second. */
  lemma TakeInReverse(s: Sys, v: VoteId, q: bytes) returns (t: Sys)
    requires Reachable(s) && Fresh(s, 3, v) && 3 in s.told && s.told[3] == [] && Short(q)
    requires 3 in s.down && s.down[3] == [AskQuestion(v, q), AnnounceResult(v, SAT)]
    ensures Reachable(t) && LeftBehind(t, v, q) && t.server == s.server && t.created == s.created && t.down == s.down
    ensures t.up == Handled(s.up, 3, CastVote(v, UNSAT))
  {
    assert s.down[3][1] == AnnounceResult(v, SAT) && s.down[3][0] == AskQuestion(v, q);
    var m := Learn(s, v, 3, SAT);
    t := AnswerFrom(m, v, q, 3, UNSAT);
  }

  /** One set-up for three clients. Clients 1 and 2 close it with SAT. Client 3, a participant, handles its result and
      then its question, each once: the result was dropped, and it keeps its own answer UNSAT. */
  lemma ResultBeforeQuestion(v: VoteId, q: bytes) returns (t: Sys)
    requires Short(q)
    ensures Reachable(t) && Created(t, v) == 1 && OneRequestAndVotes(t, v, q, SAT, SAT, UNSAT) && LeftBehind(t, v, q)
    ensures Closed(t, v) && t.server.host[v].result == SAT && 3 in t.server.host[v].participants
  {
    var s := RequestOnly(v, q);
    assert Queued(s.up, 1, RequestVote(v, q));
    var s1 := Decide(s, v, q, 1, 2, SAT);
    t := TakeInReverse(s1, v, q);
    Pushed(v, q, t.up, SAT, SAT, UNSAT);
  }

  /** "1==1", a question every client can compute. */
  const EXAMPLE: bytes := [49, 61, 61, 49]

  /** Agreement is guaranteed for a VoteID set up at most `n` times exactly when n <= 1. */
  lemma AgreementExactly(v: VoteId, n: nat)
    ensures (forall s | Reachable(s) && Created(s, v) <= n :: Agrees(s, v)) <==> n <= 1
  {
    if n <= 1 {
      forall s, c, d | Reachable(s) && Created(s, v) <= n && Complete(s, c, v) && Complete(s, d, v)
        ensures s.clients[c].guest[v].result == s.clients[d].guest[v].result
      {
        ConsensusTheorems.ClientsAgree(s, v, c, d);
      }
    } else {
      var t := TwoSetUpsDisagree(v, EXAMPLE);
      assert !Agrees(t, v);
    }
  }
}
