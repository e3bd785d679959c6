/** No reachable state is a dead end: every referendum with participants can still be closed, and its result be brought
    to all of them. */
module Progress {
  import opened Bytes
  import opened Pip
  import opened Messages
  import opened Referendum
  import opened EarlyCall
  import opened Consensus
  import opened Agreement
  import Runs

  // ----- nothing that is still needed is missing from the logs -----

  ghost predicate AllFit(up: map<u32, seq<Msg>>) {
    forall c, m | Queued(up, c, m) :: Fits(m)
  }

  /** Every answer that was computed has been sent. */
  ghost predicate BallotsSent(up: map<u32, seq<Msg>>, ballots: map<(u32, VoteId), (bytes, u16)>) {
    forall k | k in ballots :: Queued(up, k.0, CastVote(k.1, ballots[k].1))
  }

  /** Participant `c` has been asked, and told the result if there is one. */
  ghost predicate Informed(h: HostRef, down: map<u32, seq<Msg>>, v: VoteId, c: u32) {
    && Queued(down, c, AskQuestion(v, h.question))
    && (!h.ongoing ==> Queued(down, c, AnnounceResult(v, h.result)))
  }

  ghost predicate AllInformed(server: Node, down: map<u32, seq<Msg>>) {
    forall v, c | v in server.host && c in server.host[v].participants :: Informed(server.host[v], down, v, c)
  }

  ghost predicate Supplied(s: Sys) {
    AllFit(s.up) && BallotsSent(s.up, s.ballots) && AllInformed(s.server, s.down)
  }

  lemma PushAllReaches(logs: map<u32, seq<Msg>>, sends: map<u32, Msg>)
    ensures forall c | c in logs && c in sends && Fits(sends[c]) :: Queued(PushAll(logs, sends), c, sends[c])
  {}

  /** How one host changes when the server handles a message. */
  lemma HostEffect(s: Sys, c: u32, m: Msg, ch: Choice, v: VoteId)
    requires NodeOk(s.server) && FromClient(m) && v in Handle(s.server, c, m, ch).host
    ensures var h := Handle(s.server, c, m, ch).host[v];
      || (m.RequestVote? && m.voteId == v && h == NewHost(m.question, EligiblePeers(ch.known)))
      || (v in s.server.host
          && h.question == s.server.host[v].question && h.participants == s.server.host[v].participants
          && (h.ongoing || (!s.server.host[v].ongoing && h.result == s.server.host[v].result)
              || (m.CastVote? && m.voteId == v && Closes(s.server.host[v], c, m.response) && h.result == ch.winner)))
  {}

  lemma InformedServer(s: Sys, c: u32, m: Msg, ch: Choice)
    requires NodeOk(s.server) && FromClient(m) && Fits(m) && EligiblePeers(ch.known) <= s.down.Keys
    requires AllInformed(s.server, s.down)
    requires forall v | v in s.server.host :: s.server.host[v].participants <= s.down.Keys
    ensures AllInformed(ServerStep(s, c, m, ch).server, ServerStep(s, c, m, ch).down)
  {
    var t := ServerStep(s, c, m, ch);
    forall v, d | v in t.server.host && d in t.server.host[v].participants
      ensures Informed(t.server.host[v], t.down, v, d)
    {
      ParticipantInformed(s, c, m, ch, v, d);
    }
  }

  lemma ParticipantInformed(s: Sys, c: u32, m: Msg, ch: Choice, v: VoteId, d: u32)
    requires NodeOk(s.server) && FromClient(m) && Fits(m) && EligiblePeers(ch.known) <= s.down.Keys
    requires AllInformed(s.server, s.down)
    requires forall v | v in s.server.host :: s.server.host[v].participants <= s.down.Keys
    requires v in ServerStep(s, c, m, ch).server.host && d in ServerStep(s, c, m, ch).server.host[v].participants
    ensures Informed(ServerStep(s, c, m, ch).server.host[v], ServerStep(s, c, m, ch).down, v, d)
  {
    var sends := Sends(s.server, c, m, ch);
    HostEffect(s, c, m, ch, v);
    PushAllQueued(s.down, sends);
    PushAllReaches(s.down, sends);
    if m.RequestVote? && m.voteId == v {
      WhatFits(v, m.question, 0);
      assert d in sends && sends[d] == AskQuestion(v, m.question);
    } else {
      assert Informed(s.server.host[v], s.down, v, d);
      if m.CastVote? && m.voteId == v && Closes(s.server.host[v], c, m.response) {
        WhatFits(v, [], ch.winner);
        assert d in sends && sends[d] == AnnounceResult(v, ch.winner);
      }
    }
  }

  lemma AnswerSent(s: Sys, c: u32, m: Msg, ch: Choice)
    requires c in s.clients && NodeOk(s.clients[c]) && FromServer(m) && c in s.up
    requires AllFit(s.up) && BallotsSent(s.up, s.ballots)
    ensures AllFit(ClientStep(s, c, m, ch).up)
    ensures BallotsSent(ClientStep(s, c, m, ch).up, ClientStep(s, c, m, ch).ballots)
  {
    var sends := Sends(s.clients[c], s.serverId, m, ch);
    if m.AskQuestion? && m.voteId !in s.clients[c].guest {
      assert s.serverId in sends && sends[s.serverId] == CastVote(m.voteId, ch.computed);
      FirstAnswerSent(s.up, s.ballots, c, m.voteId, m.question, ch.computed);
    } else if s.serverId in sends {
      PushedUp(s.up, s.ballots, c, sends[s.serverId]);
    }
  }

  lemma FirstAnswerSent(
      up: map<u32, seq<Msg>>, ballots: map<(u32, VoteId), (bytes, u16)>, c: u32, v: VoteId, q: bytes, r: u16)
    requires AllFit(up) && BallotsSent(up, ballots) && c in up
    ensures AllFit(PushTo(up, c, CastVote(v, r)))
    ensures BallotsSent(PushTo(up, c, CastVote(v, r)), ballots[(c, v) := (q, r)])
  {
    PushedUp(up, ballots, c, CastVote(v, r));
    WhatFits(v, [], r);
  }

  lemma PushedUp(up: map<u32, seq<Msg>>, ballots: map<(u32, VoteId), (bytes, u16)>, c: u32, m: Msg)
    requires AllFit(up) && BallotsSent(up, ballots)
    ensures AllFit(PushTo(up, c, m)) && BallotsSent(PushTo(up, c, m), ballots)
  {
    PushToQueued(up, c, m);
  }

  lemma InformedMore(server: Node, down: map<u32, seq<Msg>>, c: u32, m: Msg)
    requires AllInformed(server, down)
    ensures AllInformed(server, PushTo(down, c, m))
  {
    PushToQueued(down, c, m);
    forall v, d | v in server.host && d in server.host[v].participants
      ensures Informed(server.host[v], PushTo(down, c, m), v, d)
    {
      assert Informed(server.host[v], down, v, d);
    }
  }

  lemma SuppliedStep(s: Sys, act: Action)
    requires Shape(s) && Supplied(s) && Enabled(s, act)
    ensures Supplied(Apply(s, act))
  {
    match act {
      case ServerHandles(c, m, ch) =>
        assert FromClient(m);
        InformedServer(s, c, m, ch);
      case ClientHandles(c, m, ch) =>
        assert FromServer(m);
        AnswerSent(s, c, m, ch);
      case ClientRequests(c, v, q) => PushedUp(s.up, s.ballots, c, RequestVote(v, q));
      case ClientGreets(c, f) => PushedUp(s.up, s.ballots, c, Greet(f));
      case ServerGreets(c, f) => InformedMore(s.server, s.down, c, Greet(f));
    }
  }

  ghost predicate Provided(s: Sys) {
    Reachable(s) && Supplied(s)
  }

  lemma ProvidedNext(s: Sys, t: Sys)
    requires Provided(s) && Next(s, t)
    ensures Provided(t)
  {
    Runs.ReachableNext(Init, Next, s, t);
    ReachableInv(s);
    var act :| Enabled(s, act) && t == Apply(s, act);
    SuppliedStep(s, act);
  }

  lemma ReachableSupplied(s: Sys)
    requires Reachable(s)
    ensures Supplied(s)
  {
    forall x | Init(x) ensures Provided(x) {
      Runs.ReachesSelf(Next, x);
    }
    forall x, y | Provided(x) && Next(x, y) ensures Provided(y) {
      ProvidedNext(x, y);
    }
    Runs.InvariantHolds(Init, Next, Provided, s);
  }

  // ----- one step -----

  function AnyChoice(winner: u16): Choice {
    Choice(map[], 0, winner, [])
  }

  // ----- all participants are asked -----

  ghost predicate Knows(s: Sys, c: u32, v: VoteId) {
    c in s.clients && v in s.clients[c].guest
  }

  /** Only clients have moved, and the clients `who` have queued at most one message each. */
  ghost predicate ClientsMoved(s: Sys, t: Sys, who: set<u32>) {
    && t.server == s.server && t.down == s.down && t.created == s.created
    && t.up.Keys == s.up.Keys && t.clients.Keys == s.clients.Keys
    && (forall c | c in s.up :: |t.up[c]| <= |s.up[c]| + (if c in who then 1 else 0))
  }

  function Asking(s: Sys, v: VoteId, c: u32): Action
    requires v in s.server.host
  {
    ClientHandles(c, AskQuestion(v, s.server.host[v].question), AnyChoice(0))
  }

  lemma CanAsk(s: Sys, v: VoteId, c: u32)
    requires Reachable(s) && v in s.server.host && c in s.server.host[v].participants
    ensures Enabled(s, Asking(s, v, c)) && c in s.up
  {
    ReachableInv(s);
    ReachableSupplied(s);
    assert Informed(s.server.host[v], s.down, v, c);
  }

  lemma AskedEffect(s: Sys, v: VoteId, c: u32)
    requires v in s.server.host && Enabled(s, Asking(s, v, c)) && c in s.up
    ensures ClientsMoved(s, Apply(s, Asking(s, v, c)), {c})
    ensures Knows(Apply(s, Asking(s, v, c)), c, v)
    ensures forall d | Knows(s, d, v) :: Knows(Apply(s, Asking(s, v, c)), d, v)
  {}

  lemma AskOne(s: Sys, v: VoteId, c: u32) returns (t: Sys)
    requires Reachable(s) && v in s.server.host && c in s.server.host[v].participants
    ensures Runs.Reaches(Next, s, t) && Reachable(t) && ClientsMoved(s, t, {c})
    ensures Knows(t, c, v) && (forall d | Knows(s, d, v) :: Knows(t, d, v))
  {
    CanAsk(s, v, c);
    AskedEffect(s, v, c);
    Take(s, Asking(s, v, c));
    t := Apply(s, Asking(s, v, c));
  }

  lemma {:induction false} AskAll(s: Sys, v: VoteId, todo: set<u32>) returns (t: Sys)
    requires Reachable(s) && v in s.server.host && todo <= s.server.host[v].participants
    ensures Runs.Reaches(Next, s, t) && Reachable(t) && ClientsMoved(s, t, todo)
    ensures (forall c | c in todo :: Knows(t, c, v)) && (forall d | Knows(s, d, v) :: Knows(t, d, v))
    decreases todo
  {
    if todo == {} {
      Runs.ReachesSelf(Next, s);
      return s;
    }
    var c :| c in todo;
    var m := AskOne(s, v, c);
    t := AskAll(m, v, todo - {c});
    Runs.ReachesTransitive(Next, s, m, t);
  }

  // ----- the votes are counted until the referendum closes -----

  lemma WhoeverKnowsHasVoted(s: Sys, c: u32, v: VoteId) returns (r: u16)
    requires Reachable(s) && Knows(s, c, v)
    ensures Queued(s.up, c, CastVote(v, r))
  {
    ReachableInv(s);
    ReachableSupplied(s);
    assert ClientOk(s, c);
    assert (c, v) in s.ballots;
    r := s.ballots[(c, v)].1;
  }

  /** The option that will be announced when `c` answers `r`, if any. */
  lemma Winner(h: HostRef, c: u32, r: u16) returns (w: u16)
    requires WhoOk(h)
    ensures Closes(h, c, r) ==> MayAnnounce(h, c, r, w)
  {
    w := 0;
    if Closes(h, c, r) {
      var x :| x in Record(h, c, r).votes && Callable(Record(h, c, r), x);
      w := x;
    }
  }

  /** Only the server has moved, and no participant or set-up has changed; nothing is queued before the close. */
  ghost predicate ServerMoved(s: Sys, t: Sys, v: VoteId) {
    && t.clients == s.clients && t.up == s.up && t.created == s.created && t.down.Keys == s.down.Keys
    && v in s.server.host && v in t.server.host && t.server.host[v].participants == s.server.host[v].participants
    && (forall c | c in s.down :: |t.down[c]| <= |s.down[c]| + (if t.server.host[v].ongoing then 0 else 1))
  }

  function Voting(v: VoteId, c: u32, r: u16, w: u16): Action {
    ServerHandles(c, CastVote(v, r), AnyChoice(w))
  }

  lemma CanVote(s: Sys, v: VoteId, c: u32) returns (act: Action)
    requires Reachable(s) && v in s.server.host && Knows(s, c, v)
    ensures Enabled(s, act) && exists r, w :: act == Voting(v, c, r, w)
  {
    var r := WhoeverKnowsHasVoted(s, c, v);
    ServerInOrder(s);
    var w := Winner(s.server.host[v], c, r);
    act := Voting(v, c, r, w);
  }

  lemma ServerInOrder(s: Sys)
    requires Reachable(s)
    ensures NodeOk(s.server)
  {
    ReachableInv(s);
  }

  lemma VotedEffect(s: Sys, v: VoteId, c: u32, r: u16, w: u16)
    requires v in s.server.host && Enabled(s, Voting(v, c, r, w)) && Admits(s.server.host[v], c)
    ensures ServerMoved(s, Apply(s, Voting(v, c, r, w)), v)
    ensures Apply(s, Voting(v, c, r, w)).server.host[v].who == s.server.host[v].who + {c}
  {
    PushedLengths(s.down, Sends(s.server, c, CastVote(v, r), AnyChoice(w)));
    VotedHost(s.server, c, v, r, w);
  }

  lemma VotedHost(n: Node, c: u32, v: VoteId, r: u16, w: u16)
    requires NodeOk(n) && v in n.host && Admits(n.host[v], c)
    ensures v in Voted(n, c, v, r, w).host
    ensures var h := Voted(n, c, v, r, w).host[v];
      && h.who == n.host[v].who + {c} && h.participants == n.host[v].participants
      && (h.ongoing ==> Results(n, c, v, r, w) == map[])
  {}

  lemma PushedLengths(logs: map<u32, seq<Msg>>, sends: map<u32, Msg>)
    ensures PushAll(logs, sends).Keys == logs.Keys
    ensures forall c | c in logs :: |PushAll(logs, sends)[c]| <= |logs[c]| + (if c in sends then 1 else 0)
  {}

  lemma VoteOne(s: Sys, v: VoteId, c: u32) returns (t: Sys)
    requires Reachable(s) && v in s.server.host && Admits(s.server.host[v], c) && Knows(s, c, v)
    ensures Runs.Reaches(Next, s, t) && Reachable(t) && ServerMoved(s, t, v)
    ensures t.server.host[v].who == s.server.host[v].who + {c}
  {
    var act := CanVote(s, v, c);
    var r, w :| act == Voting(v, c, r, w);
    VotedEffect(s, v, c, r, w);
    Take(s, act);
    t := Apply(s, act);
  }

  lemma Outside(who: set<u32>, participants: set<u32>) returns (c: u32)
    requires who <= participants && who != participants
    ensures c in participants && c !in who
  {
    Remaining(who, participants);
    assert |participants - who| + |who| == |participants|;
    c :| c in participants - who;
  }

  lemma OpenMeansMissing(h: HostRef) returns (c: u32)
    requires RefOk(h) && h.ongoing && h.participants != {}
    ensures Admits(h, c)
  {
    OpenBound(h);
    c := Outside(h.who, h.participants);
  }

  lemma HostInOrder(s: Sys, v: VoteId)
    requires Reachable(s) && v in s.server.host
    ensures RefOk(s.server.host[v])
  {
    ReachableInv(s);
  }

  lemma {:induction false} VoteAll(s: Sys, v: VoteId) returns (t: Sys)
    requires Reachable(s) && v in s.server.host && s.server.host[v].participants != {}
    requires forall c | c in s.server.host[v].participants :: Knows(s, c, v)
    ensures Runs.Reaches(Next, s, t) && Reachable(t) && ServerMoved(s, t, v) && Closed(t, v)
    decreases s.server.host[v].participants - s.server.host[v].who
  {
    if !s.server.host[v].ongoing {
      Runs.ReachesSelf(Next, s);
      return s;
    }
    HostInOrder(s, v);
    var c := OpenMeansMissing(s.server.host[v]);
    var m := VoteOne(s, v, c);
    if !m.server.host[v].ongoing {
      return m;
    }
    t := VoteAll(m, v);
    Runs.ReachesTransitive(Next, s, m, t);
  }

  // ----- all participants are told -----

  ghost predicate SameBut(s: Sys, t: Sys) {
    && t.server == s.server && t.down == s.down && t.up == s.up
    && t.created == s.created && t.clients.Keys == s.clients.Keys
  }

  function Telling(s: Sys, v: VoteId, c: u32): Action
    requires v in s.server.host
  {
    ClientHandles(c, AnnounceResult(v, s.server.host[v].result), AnyChoice(0))
  }

  lemma CanTell(s: Sys, v: VoteId, c: u32)
    requires Reachable(s) && Closed(s, v) && c in s.server.host[v].participants
    ensures Enabled(s, Telling(s, v, c))
  {
    ReachableInv(s);
    ReachableSupplied(s);
    assert Informed(s.server.host[v], s.down, v, c);
  }

  lemma ToldEffect(s: Sys, v: VoteId, c: u32)
    requires v in s.server.host && Enabled(s, Telling(s, v, c)) && Knows(s, c, v)
    ensures SameBut(s, Apply(s, Telling(s, v, c))) && Complete(Apply(s, Telling(s, v, c)), c, v)
    ensures forall d | Knows(s, d, v) :: Knows(Apply(s, Telling(s, v, c)), d, v)
    ensures forall d | Complete(s, d, v) :: Complete(Apply(s, Telling(s, v, c)), d, v)
  {}

  lemma TellOne(s: Sys, v: VoteId, c: u32) returns (t: Sys)
    requires Reachable(s) && Closed(s, v) && c in s.server.host[v].participants && Knows(s, c, v)
    ensures Runs.Reaches(Next, s, t) && Reachable(t) && SameBut(s, t)
    ensures Complete(t, c, v) && (forall d | Knows(s, d, v) :: Knows(t, d, v))
    ensures forall d | Complete(s, d, v) :: Complete(t, d, v)
  {
    CanTell(s, v, c);
    ToldEffect(s, v, c);
    Take(s, Telling(s, v, c));
    t := Apply(s, Telling(s, v, c));
  }

  lemma {:induction false} TellAll(s: Sys, v: VoteId, todo: set<u32>) returns (t: Sys)
    requires Reachable(s) && Closed(s, v) && todo <= s.server.host[v].participants
    requires forall c | c in todo :: Knows(s, c, v)
    ensures Runs.Reaches(Next, s, t) && Reachable(t) && SameBut(s, t)
    ensures (forall c | c in todo :: Complete(t, c, v)) && (forall d | Complete(s, d, v) :: Complete(t, d, v))
    decreases todo
  {
    if todo == {} {
      Runs.ReachesSelf(Next, s);
      return s;
    }
    var c :| c in todo;
    var m := TellOne(s, v, c);
    t := TellAll(m, v, todo - {c});
    Runs.ReachesTransitive(Next, s, m, t);
  }

  // ----- all of it -----

  ghost predicate OneMoreEach(logs: map<u32, seq<Msg>>, more: map<u32, seq<Msg>>) {
    more.Keys == logs.Keys && forall c | c in logs :: |more[c]| <= |logs[c]| + 1
  }

  /** From every reachable state each referendum with participants can be closed, without another set-up, and its
      result can reach all of them; one more message per client and direction is enough. */
  lemma CanBeCompleted(s: Sys, v: VoteId) returns (t: Sys)
    requires Reachable(s) && v in s.server.host && s.server.host[v].participants != {}
    ensures Runs.Reaches(Next, s, t) && Reachable(t) && Created(t, v) == Created(s, v)
    ensures Closed(t, v) && t.server.host[v].participants == s.server.host[v].participants
    ensures forall c | c in t.server.host[v].participants :: Complete(t, c, v)
    ensures OneMoreEach(s.up, t.up) && OneMoreEach(s.down, t.down)
  {
    var asked := AskAll(s, v, s.server.host[v].participants);
    t := VoteAndTell(asked, v);
    Runs.ReachesTransitive(Next, s, asked, t);
  }

  lemma VoteAndTell(s: Sys, v: VoteId) returns (t: Sys)
    requires Reachable(s) && v in s.server.host && s.server.host[v].participants != {}
    requires forall c | c in s.server.host[v].participants :: Knows(s, c, v)
    ensures Runs.Reaches(Next, s, t) && Reachable(t) && t.created == s.created && t.up == s.up
    ensures Closed(t, v) && t.server.host[v].participants == s.server.host[v].participants
    ensures forall c | c in t.server.host[v].participants :: Complete(t, c, v)
    ensures OneMoreEach(s.down, t.down)
  {
    var closed := VoteAll(s, v);
    assert forall c | Knows(s, c, v) :: Knows(closed, c, v);
    t := TellAll(closed, v, closed.server.host[v].participants);
    Runs.ReachesTransitive(Next, s, closed, t);
  }

  // ----- greetings -----

  lemma GreetingsFit(f: seq<u16>)
    requires |f| <= 121
    ensures Fits(Greet(f)) && Fits(GreetBack(f))
  {}

  lemma ClientsInOrder(s: Sys, c: u32)
    requires Reachable(s) && c in s.clients
    ensures NodeOk(s.server) && NodeOk(s.clients[c]) && c in s.up && c in s.down
  {
    ReachableInv(s);
  }

  /** From every state a client can send its hello and the server answer it. The 121 features are those that fit into a
      body of 250 bytes. */
  lemma ClientHello(s: Sys, c: u32, f: seq<u16>, features: seq<u16>) returns (t: Sys)
    requires Reachable(s) && c in s.clients && |f| <= 121 && |features| <= 121
    ensures Runs.Reaches(Next, s, t) && Reachable(t) && t.server == s.server && t.clients == s.clients
    ensures c in s.up && t.up == s.up[c := s.up[c] + [Greet(f)]]
    ensures c in s.down && t.down == s.down[c := s.down[c] + [GreetBack(features)]]
  {
    ClientsInOrder(s, c);
    GreetingsFit(f);
    GreetingsFit(features);
    Take(s, ClientGreets(c, f));
    var m := Apply(s, ClientGreets(c, f));
    var act := ServerHandles(c, Greet(f), Choice(map[], 0, 0, features));
    assert Enabled(m, act);
    Take(m, act);
    t := Apply(m, act);
    Runs.ReachesTransitive(Next, s, m, t);
  }

  /** And the server can send its own, and the client answer it. */
  lemma ServerHello(s: Sys, c: u32, f: seq<u16>, features: seq<u16>) returns (t: Sys)
    requires Reachable(s) && c in s.clients && |f| <= 121 && |features| <= 121
    ensures Runs.Reaches(Next, s, t) && Reachable(t) && t.server == s.server && t.clients == s.clients
    ensures c in s.down && t.down == s.down[c := s.down[c] + [Greet(f)]]
    ensures c in s.up && t.up == s.up[c := s.up[c] + [GreetBack(features)]]
  {
    ClientsInOrder(s, c);
    GreetingsFit(f);
    GreetingsFit(features);
    Take(s, ServerGreets(c, f));
    var m := Apply(s, ServerGreets(c, f));
    var act := ClientHandles(c, Greet(f), Choice(map[], 0, 0, features));
    assert Enabled(m, act);
    Take(m, act);
    t := Apply(m, act);
    Runs.ReachesTransitive(Next, s, m, t);
  }
}
