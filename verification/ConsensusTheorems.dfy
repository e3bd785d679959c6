/** What every run of the voting protocol guarantees, and exactly when its clients must agree. */
module ConsensusTheorems {
  import opened Bytes
  import opened Pip
  import opened Messages
  import opened Referendum
  import opened EarlyCall
  import opened Consensus
  import opened Agreement
  import Runs
  import Tolerance

  /** Every count equals the number of counted clients whose own computed answer it is, however often messages are
      handled again and even if a re-delivered request has restarted the referendum. */
  lemma TallyFidelity(s: Sys, v: VoteId, r: u16)
    requires Reachable(s) && v in s.server.host
    ensures Count(s.server.host[v], r) == |set c | c in s.server.host[v].who && CastAs(s, c, v, r)|
    ensures forall c | c in s.server.host[v].who :: (c, v) in s.ballots && CastAs(s, c, v, s.ballots[(c, v)].1)
    ensures Sum(s.server.host[v].votes) == |s.server.host[v].who|
    ensures s.server.host[v].who <= s.server.host[v].participants <= s.clients.Keys
  {
    ReachableInv(s);
    assert TallyOk(s, v);
    assert Voters(s, v, r) == set c | c in s.server.host[v].who && CastAs(s, c, v, r);
  }

  // ----- who takes part -----

  /** The hosted referendums are for those their last snapshots say. */
  ghost predicate SnapshotsOk(s: Sys) {
    forall v | v in s.server.host ::
      v in s.snapshots && s.server.host[v].participants == EligiblePeers(s.snapshots[v])
  }

  lemma SnapshotsNext(s: Sys, t: Sys)
    requires SnapshotsOk(s) && Next(s, t)
    ensures SnapshotsOk(t)
  {
    var act :| Enabled(s, act) && t == Apply(s, act);
    if act.ServerHandles? {
      SnapshotsServer(s, act.c, act.m, act.ch);
    } else {
      OtherActs(s, act);
    }
  }

  lemma OtherActs(s: Sys, act: Action)
    requires Enabled(s, act) && !act.ServerHandles?
    ensures Apply(s, act).server == s.server && Apply(s, act).snapshots == s.snapshots
  {}

  lemma SnapshotsServer(s: Sys, c: u32, m: Msg, ch: Choice)
    requires SnapshotsOk(s) && NodeOk(s.server)
    ensures SnapshotsOk(ServerStep(s, c, m, ch))
  {}

  /** In every run the participants of a hosted referendum are exactly the conversations that were online and offered
      the evaluation feature when its VoteID was last set up. */
  lemma ParticipantsExactly(s: Sys, v: VoteId, c: u32)
    requires Reachable(s) && v in s.server.host
    ensures v in s.snapshots
    ensures c in s.server.host[v].participants <==>
              c in s.snapshots[v] && s.snapshots[v][c].online && 1 in s.snapshots[v][c].features
  {
    forall x | Init(x) ensures SnapshotsOk(x) {}
    forall x, y | SnapshotsOk(x) && Next(x, y) ensures SnapshotsOk(y) {
      SnapshotsNext(x, y);
    }
    Runs.InvariantHolds(Init, Next, SnapshotsOk, s);
  }

  // ----- what they answer -----

  /** The result of a closed referendum is what all counted voters computed but for fewer than a third of the
      participants. */
  lemma RightResult(s: Sys, v: VoteId, r: u16)
    requires Reachable(s) && Closed(s, v)
    requires 3 * |Against(s, v, r)| < |s.server.host[v].participants|
    ensures s.server.host[v].result == r
  {
    ReachableTight(s);
    RefInOrder(s, v);
    TallyFidelity(s, v, r);
    Divided(s.server.host[v].who, Voters(s, v, r), Against(s, v, r));
    Tolerance.RightResult(s.server.host[v], r);
  }

  /** The counted voters that did not compute `r`. */
  ghost function Against(s: Sys, v: VoteId, r: u16): set<u32>
    requires v in s.server.host
  {
    set c | c in s.server.host[v].who && !CastAs(s, c, v, r)
  }

  lemma Divided(all: set<u32>, a: set<u32>, b: set<u32>)
    requires all == a + b && a !! b
    ensures |all| == |a| + |b|
  {}

  lemma RefInOrder(s: Sys, v: VoteId)
    requires Reachable(s) && v in s.server.host
    ensures RefOk(s.server.host[v])
  {
    ReachableInv(s);
  }

  ghost predicate AllTight(s: Sys) {
    Reachable(s) && forall v | v in s.server.host :: Tolerance.Tight(s.server.host[v])
  }

  lemma TightServer(s: Sys, c: u32, m: Msg, ch: Choice)
    requires NodeOk(s.server) && (forall v | v in s.server.host :: RefOk(s.server.host[v]))
    requires forall v | v in s.server.host :: Tolerance.Tight(s.server.host[v])
    requires m.CastVote? || m.RequestVote?
    ensures forall v | v in Handle(s.server, c, m, ch).host :: Tolerance.Tight(Handle(s.server, c, m, ch).host[v])
  {
    if m.CastVote? && m.voteId in s.server.host {
      Tolerance.RespondTight(s.server.host[m.voteId], c, m.response, ch.winner);
    }
  }

  lemma TightNext(s: Sys, t: Sys)
    requires AllTight(s) && Next(s, t)
    ensures AllTight(t)
  {
    Runs.ReachableNext(Init, Next, s, t);
    var act :| Enabled(s, act) && t == Apply(s, act);
    if act.ServerHandles? && (act.m.CastVote? || act.m.RequestVote?) {
      forall v | v in s.server.host ensures RefOk(s.server.host[v]) {
        RefInOrder(s, v);
      }
      TightServer(s, act.c, act.m, act.ch);
    } else if !act.ServerHandles? {
      OtherActs(s, act);
    }
  }

  lemma ReachableTight(s: Sys)
    requires Reachable(s)
    ensures AllTight(s)
  {
    forall x | Init(x) ensures AllTight(x) {
      Runs.ReachesSelf(Next, x);
    }
    forall x, y | AllTight(x) && Next(x, y) ensures AllTight(y) {
      TightNext(x, y);
    }
    Runs.InvariantHolds(Init, Next, AllTight, s);
  }

  /** No two requests carry the same VoteID for different questions. */
  ghost predicate OneQuestion(s: Sys, v: VoteId) {
    forall p, q | Proposed(s, v, p) && Proposed(s, v, q) :: p == q
  }

  /** Then every counted vote is an answer to the very question the host holds. */
  lemma VotesAnswerTheQuestion(s: Sys, v: VoteId, c: u32)
    requires Reachable(s) && v in s.server.host && c in s.server.host[v].who && OneQuestion(s, v)
    ensures (c, v) in s.ballots && s.ballots[(c, v)].0 == s.server.host[v].question
  {
    ReachableInv(s);
    assert TallyOk(s, v);
  }

  /** A VoteID set up once: a client that has the result has the host's, the host is closed, exactly one result was
      queued for it, and a participant had cast it. */
  lemma ResultIsTheHosts(s: Sys, v: VoteId, c: u32)
    requires Reachable(s) && Created(s, v) <= 1 && Complete(s, c, v)
    ensures Closed(s, v) && s.clients[c].guest[v].result == s.server.host[v].result
    ensures exists d | d in s.server.host[v].who :: CastAs(s, d, v, s.server.host[v].result)
  {
    ReachableInv(s);
    assert AgreeOk(s, v) && TallyOk(s, v);
    SomeoneCastIt(s, v);
  }

  lemma SomeoneCastIt(s: Sys, v: VoteId)
    requires Inv(s) && Closed(s, v)
    ensures exists d | d in s.server.host[v].who :: CastAs(s, d, v, s.server.host[v].result)
  {
    var h := s.server.host[v];
    assert TallyOk(s, v) && RefOk(h) && Callable(h, h.result);
    assert |Voters(s, v, h.result)| > 0;
    var d :| d in Voters(s, v, h.result);
  }

  lemma ClientsAgree(s: Sys, v: VoteId, c: u32, d: u32)
    requires Reachable(s) && Created(s, v) <= 1 && Complete(s, c, v) && Complete(s, d, v)
    ensures s.clients[c].guest[v].result == s.clients[d].guest[v].result
  {
    ResultIsTheHosts(s, v, c);
    ResultIsTheHosts(s, v, d);
  }

  /** One result packet per participant once closed, none before, none to anyone else. */
  lemma OneResultEach(s: Sys, v: VoteId, c: u32)
    requires Reachable(s) && Created(s, v) == 1 && c in s.down
    ensures v in s.server.host
    ensures CountResults(s.down[c], v) == if Closed(s, v) && c in s.server.host[v].participants then 1 else 0
  {
    ReachableInv(s);
    assert AgreeOk(s, v);
  }

  /** However often it is set up, at most that many results are queued for a client. */
  lemma ResultsBounded(s: Sys, v: VoteId, c: u32)
    requires Reachable(s) && c in s.down
    ensures CountResults(s.down[c], v) <= Created(s, v)
  {
    ReachableInv(s);
    assert AgreeOk(s, v);
  }

  // ----- finality -----

  /** Host `h` stands as it was when the VoteID had been set up `k` times, or it has been set up again since. */
  ghost predicate HostStands(s: Sys, v: VoteId, h: HostRef, k: nat) {
    && Reachable(s) && !h.ongoing && Created(s, v) >= k
    && (Created(s, v) == k ==> v in s.server.host && s.server.host[v] == h)
  }

  lemma HostStep(s: Sys, act: Action, v: VoteId)
    requires Shape(s) && Enabled(s, act) && Closed(s, v)
    ensures Created(Apply(s, act), v) == Created(s, v) ==>
              v in Apply(s, act).server.host && Apply(s, act).server.host[v] == s.server.host[v]
  {
    if act.ServerHandles? {
      HostServer(s, act.c, act.m, act.ch, v);
    } else {
      OtherActs(s, act);
    }
  }

  lemma HostServer(s: Sys, c: u32, m: Msg, ch: Choice, v: VoteId)
    requires NodeOk(s.server) && Closed(s, v)
    ensures var t := ServerStep(s, c, m, ch);
      Created(t, v) == Created(s, v) ==> v in t.server.host && t.server.host[v] == s.server.host[v]
  {}

  lemma CreatedGrows(s: Sys, act: Action, v: VoteId)
    requires Enabled(s, act)
    ensures Created(Apply(s, act), v) >= Created(s, v)
  {}

  lemma HostNext(s: Sys, t: Sys, v: VoteId, h: HostRef, k: nat)
    requires HostStands(s, v, h, k) && Next(s, t)
    ensures HostStands(t, v, h, k)
  {
    Runs.ReachableNext(Init, Next, s, t);
    ReachableInv(s);
    var act :| Enabled(s, act) && t == Apply(s, act);
    CreatedGrows(s, act, v);
    if Created(s, v) == k {
      HostStep(s, act, v);
    }
  }

  /** Late, repeated or outsiders' votes and anything else that happens leave a closed host as it is, for the rest of
      every run, up to the next time its VoteID is set up. */
  lemma HostFinal(s: Sys, t: Sys, v: VoteId)
    requires Reachable(s) && Closed(s, v) && Runs.Reaches(Next, s, t) && Created(t, v) == Created(s, v)
    ensures v in t.server.host && t.server.host[v] == s.server.host[v]
  {
    var h, k := s.server.host[v], Created(s, v);
    var stands := x => HostStands(x, v, h, k);
    forall x, y | stands(x) && Next(x, y) ensures stands(y) {
      HostNext(x, y, v, h, k);
    }
    var n: nat :| Runs.ReachesIn(Next, s, t, n);
    Runs.InductiveAlong(Next, stands, s, t, n);
  }

  ghost predicate GuestStands(s: Sys, v: VoteId, c: u32, g: ClientRef) {
    Reachable(s) && Complete(s, c, v) && s.clients[c].guest[v] == g
  }

  lemma GuestStep(s: Sys, act: Action, v: VoteId, c: u32)
    requires Shape(s) && Enabled(s, act) && Complete(s, c, v)
    ensures Complete(Apply(s, act), c, v) && Apply(s, act).clients[c].guest[v] == s.clients[c].guest[v]
  {}

  lemma GuestNext(s: Sys, t: Sys, v: VoteId, c: u32, g: ClientRef)
    requires GuestStands(s, v, c, g) && Next(s, t)
    ensures GuestStands(t, v, c, g)
  {
    Runs.ReachableNext(Init, Next, s, t);
    ReachableInv(s);
    var act :| Enabled(s, act) && t == Apply(s, act);
    GuestStep(s, act, v, c);
  }

  /** A complete client keeps its result for the rest of every run, however often the VoteID is set up again. */
  lemma ClientFinal(s: Sys, t: Sys, v: VoteId, c: u32)
    requires Reachable(s) && Complete(s, c, v) && Runs.Reaches(Next, s, t)
    ensures Complete(t, c, v) && t.clients[c].guest[v] == s.clients[c].guest[v]
  {
    var g := s.clients[c].guest[v];
    var stands := x => GuestStands(x, v, c, g);
    forall x, y | stands(x) && Next(x, y) ensures stands(y) {
      GuestNext(x, y, v, c, g);
    }
    var n: nat :| Runs.ReachesIn(Next, s, t, n);
    Runs.InductiveAlong(Next, stands, s, t, n);
  }

  ghost predicate BallotStands(s: Sys, c: u32, v: VoteId, ballot: (bytes, u16)) {
    Reachable(s) && (c, v) in s.ballots && s.ballots[(c, v)] == ballot
  }

  lemma BallotNext(s: Sys, t: Sys, c: u32, v: VoteId, ballot: (bytes, u16))
    requires BallotStands(s, c, v, ballot) && Next(s, t)
    ensures BallotStands(t, c, v, ballot)
  {
    Runs.ReachableNext(Init, Next, s, t);
    ReachableInv(s);
    var act :| Enabled(s, act) && t == Apply(s, act);
    BallotsGrow(s, act);
  }

  /** What a client once computed for a VoteID never changes in any run: it never votes differently later. */
  lemma BallotsAreFinal(s: Sys, t: Sys, c: u32, v: VoteId)
    requires Reachable(s) && (c, v) in s.ballots && Runs.Reaches(Next, s, t)
    ensures (c, v) in t.ballots && t.ballots[(c, v)] == s.ballots[(c, v)]
  {
    var ballot := s.ballots[(c, v)];
    var stands := x => BallotStands(x, c, v, ballot);
    forall x, y | stands(x) && Next(x, y) ensures stands(y) {
      BallotNext(x, y, c, v, ballot);
    }
    var n: nat :| Runs.ReachesIn(Next, s, t, n);
    Runs.InductiveAlong(Next, stands, s, t, n);
  }

  /** A counted voter knows the referendum, so the result packet completes it rather than being dropped. */
  lemma CountedVoterCompletes(s: Sys, v: VoteId, c: u32, r: u16, ch: Choice)
    requires Reachable(s) && v in s.server.host && c in s.server.host[v].who
    requires Enabled(s, ClientHandles(c, AnnounceResult(v, r), ch))
    ensures c in s.clients && v in s.clients[c].guest
    ensures Complete(ClientStep(s, c, AnnounceResult(v, r), ch), c, v)
    ensures !Complete(s, c, v) ==> ClientStep(s, c, AnnounceResult(v, r), ch).clients[c].guest[v].result == r
  {
    CountedVoterKnows(s, v, c);
  }

  lemma CountedVoterKnows(s: Sys, v: VoteId, c: u32)
    requires Reachable(s) && v in s.server.host && c in s.server.host[v].who
    ensures c in s.clients && v in s.clients[c].guest
  {
    ReachableInv(s);
    assert TallyOk(s, v) && ClientOk(s, c);
  }

  /** A referendum with participants never stays open once all of them have been counted. */
  lemma ClosedByTheLastVote(s: Sys, v: VoteId)
    requires Reachable(s) && v in s.server.host && s.server.host[v].participants != {}
    ensures s.server.host[v].who == s.server.host[v].participants ==> Closed(s, v)
  {
    ReferendumOk(s, v);
    if s.server.host[v].ongoing {
      OpenBound(s.server.host[v]);
    }
  }

  lemma ReferendumOk(s: Sys, v: VoteId)
    requires Reachable(s) && v in s.server.host
    ensures RefOk(s.server.host[v])
  {
    ReachableInv(s);
  }
}
