/** The guarantees of the protocol, and their limit, for the deployed system: vote handlers over lossy links. */
module EndToEnd {
  import opened Bytes
  import opened Wrappers
  import opened Pip
  import opened Messages
  import opened Referendum
  import opened Deployment
  import opened Realization
  import Agreement
  import Consensus
  import ConsensusTheorems
  import Disagreement
  import Runs

  /** Client `c` computed the answer `r` to `v`. */
  ghost predicate Computed(n: Net, c: u32, v: VoteId, r: u16) {
    (c, v) in n.ballots && n.ballots[(c, v)].1 == r
  }

  /** Client `c` is complete for `v` with result `r`. */
  ghost predicate Holds(n: Net, c: u32, v: VoteId, r: u16) {
    c in n.clients && v in n.clients[c].guest && n.clients[c].guest[v].complete && n.clients[c].guest[v].result == r
  }

  ghost predicate ClosedHost(n: Net, v: VoteId) {
    v in n.server.host && !n.server.host[v].ongoing
  }

  function SetUps(n: Net, v: VoteId): nat {
    if v in n.created then n.created[v] else 0
  }

  // ----- tally -----

  lemma FaithfulTally(n: Net, v: VoteId, r: u16)
    requires Reachable(n) && v in n.server.host
    ensures Count(n.server.host[v], r) == |set c | c in n.server.host[v].who && Computed(n, c, v, r)|
  {
    DeploymentRefinesConsensus(n);
    TallyAbove(n, Abs(n), v, r);
  }

  lemma TallyAbove(n: Net, s: Consensus.Sys, v: VoteId, r: u16)
    requires Consensus.Reachable(s) && s.server == n.server && s.ballots == n.ballots && v in n.server.host
    ensures Count(n.server.host[v], r) == |set c | c in n.server.host[v].who && Computed(n, c, v, r)|
  {
    ConsensusTheorems.TallyFidelity(s, v, r);
    assert (set c | c in n.server.host[v].who && Computed(n, c, v, r))
        == (set c | c in s.server.host[v].who && Consensus.CastAs(s, c, v, r));
  }

  /** Every request for `v` that any client has queued asks the same question. */
  ghost predicate OneQuestion(n: Net, v: VoteId) {
    forall c, d, q, r | c in n.links && d in n.links && RequestVote(v, q) in Log(n.links[c].a.queued)
                     && RequestVote(v, r) in Log(n.links[d].a.queued) :: q == r
  }

  /** Then every counted vote answers the very question the host holds. */
  lemma VotesAnswerTheQuestion(n: Net, v: VoteId, c: u32)
    requires Reachable(n) && v in n.server.host && c in n.server.host[v].who && OneQuestion(n, v)
    ensures (c, v) in n.ballots && n.ballots[(c, v)].0 == n.server.host[v].question
  {
    DeploymentRefinesConsensus(n);
    OneQuestionAbove(n, v);
    ConsensusTheorems.VotesAnswerTheQuestion(Abs(n), v, c);
  }

  lemma OneQuestionAbove(n: Net, v: VoteId)
    requires OneQuestion(n, v)
    ensures ConsensusTheorems.OneQuestion(Abs(n), v)
  {
    forall d, q | Consensus.Queued(Abs(n).up, d, RequestVote(v, q))
      ensures d in n.links && RequestVote(v, q) in Log(n.links[d].a.queued)
    {}
  }

  /** Who takes part: exactly those that were online and offered the feature at the last set-up. */
  lemma ParticipantsExactly(n: Net, v: VoteId, c: u32)
    requires Reachable(n) && v in n.server.host
    ensures v in n.snapshots
    ensures c in n.server.host[v].participants <==>
              c in n.snapshots[v] && n.snapshots[v][c].online && 1 in n.snapshots[v][c].features
  {
    DeploymentRefinesConsensus(n);
    ConsensusTheorems.ParticipantsExactly(Abs(n), v, c);
  }

  /** If fewer than a third of the participants were counted with another answer than `r`, the result is `r`, and so is
      that of every complete client after one set-up. */
  lemma RightResult(n: Net, v: VoteId, r: u16)
    requires Reachable(n) && ClosedHost(n, v)
    requires 3 * |set c | c in n.server.host[v].who && !Computed(n, c, v, r)| < |n.server.host[v].participants|
    ensures n.server.host[v].result == r
    ensures SetUps(n, v) <= 1 ==> forall c, q | Holds(n, c, v, q) :: q == r
  {
    DeploymentRefinesConsensus(n);
    RightAbove(n, Abs(n), v, r);
    if c, q :| SetUps(n, v) <= 1 && Holds(n, c, v, q) {
      ClientsAgree(n, v, c, q);
    }
  }

  lemma RightAbove(n: Net, s: Consensus.Sys, v: VoteId, r: u16)
    requires Consensus.Reachable(s) && s.server == n.server && s.ballots == n.ballots && ClosedHost(n, v)
    requires 3 * |set c | c in n.server.host[v].who && !Computed(n, c, v, r)| < |n.server.host[v].participants|
    ensures n.server.host[v].result == r
  {
    assert (set c | c in n.server.host[v].who && !Computed(n, c, v, r)) == ConsensusTheorems.Against(s, v, r);
    ConsensusTheorems.RightResult(s, v, r);
  }

  lemma ClosedOnceAllVoted(n: Net, v: VoteId)
    requires Reachable(n) && v in n.server.host && n.server.host[v].participants != {}
    requires n.server.host[v].who == n.server.host[v].participants
    ensures ClosedHost(n, v)
  {
    DeploymentRefinesConsensus(n);
    ConsensusTheorems.ClosedByTheLastVote(Abs(n), v);
  }

  // ----- results -----

  lemma ClientsAgree(n: Net, v: VoteId, c: u32, r: u16)
    requires Reachable(n) && SetUps(n, v) <= 1 && Holds(n, c, v, r)
    ensures ClosedHost(n, v) && n.server.host[v].result == r
    ensures exists d | d in n.server.host[v].who :: Computed(n, d, v, r)
    ensures forall d, q | Holds(n, d, v, q) :: q == r
  {
    DeploymentRefinesConsensus(n);
    var s := Abs(n);
    ConsensusTheorems.ResultIsTheHosts(s, v, c);
    var d :| d in s.server.host[v].who && Consensus.CastAs(s, d, v, s.server.host[v].result);
    assert Computed(n, d, v, r);
    forall d, q | Holds(n, d, v, q) ensures q == r {
      ConsensusTheorems.ResultIsTheHosts(s, v, d);
    }
  }

  /** Result messages for `v` among those queued for client `c`. */
  function ResultsQueued(n: Net, c: u32, v: VoteId): nat
    requires c in n.links
  {
    Agreement.CountResults(Log(n.links[c].b.queued), v)
  }

  lemma OneResultEach(n: Net, v: VoteId, c: u32)
    requires Reachable(n) && SetUps(n, v) == 1 && c in n.links
    ensures v in n.server.host
    ensures ResultsQueued(n, c, v) == if ClosedHost(n, v) && c in n.server.host[v].participants then 1 else 0
  {
    DeploymentRefinesConsensus(n);
    ConsensusTheorems.OneResultEach(Abs(n), v, c);
  }

  lemma ResultsBounded(n: Net, v: VoteId, c: u32)
    requires Reachable(n) && c in n.links
    ensures ResultsQueued(n, c, v) <= SetUps(n, v)
  {
    DeploymentRefinesConsensus(n);
    ConsensusTheorems.ResultsBounded(Abs(n), v, c);
  }

  /** A counted voter that processes the packet with the result is complete afterwards. */
  lemma CountedVoterCompletes(n: Net, v: VoteId, c: u32, num: u32, ch: Choice, r: u16)
    requires Reachable(n) && v in n.server.host && c in n.server.host[v].who
    requires Enabled(n, ClientProcesses(c, num, ch)) && Buffered(n.links[c].a, num) == Some(AnnounceResult(v, r))
    ensures exists q :: Holds(ClientProcess(n, c, num, ch), c, v, q)
    ensures (forall q :: !Holds(n, c, v, q)) ==> Holds(ClientProcess(n, c, num, ch), c, v, r)
  {
    CountedVoterKnows(n, v, c);
    ResultTakenOver(n, v, c, num, ch, r);
    var g := n.clients[c].guest[v];
    assert g.complete ==> Holds(n, c, v, g.result);
  }

  lemma CountedVoterKnows(n: Net, v: VoteId, c: u32)
    requires Reachable(n) && v in n.server.host && c in n.server.host[v].who
    ensures c in n.clients && v in n.clients[c].guest
  {
    DeploymentRefinesConsensus(n);
    ConsensusTheorems.CountedVoterKnows(Abs(n), v, c);
  }

  lemma ResultTakenOver(n: Net, v: VoteId, c: u32, num: u32, ch: Choice, r: u16)
    requires c in n.clients && v in n.clients[c].guest && NodeOk(n.clients[c])
    requires c in n.links && num in n.links[c].a.receiver.incoming
    requires Buffered(n.links[c].a, num) == Some(AnnounceResult(v, r))
    ensures Holds(ClientProcess(n, c, num, ch), c, v,
                  if n.clients[c].guest[v].complete then n.clients[c].guest[v].result else r)
  {
    ClientAfter(n, c, num, ch, AnnounceResult(v, r));
  }

  lemma ClientAfter(n: Net, c: u32, num: u32, ch: Choice, m: Msg)
    requires c in n.clients && NodeOk(n.clients[c]) && c in n.links && num in n.links[c].a.receiver.incoming
    requires Buffered(n.links[c].a, num) == Some(m)
    ensures ClientProcess(n, c, num, ch).clients == n.clients[c := Handle(n.clients[c], n.serverId, m, ch)]
  {}

  // ----- finality -----

  /** A closed host stays as it is up to the next time its VoteID is set up. */
  lemma HostFinal(n: Net, n': Net, v: VoteId)
    requires Reachable(n) && ClosedHost(n, v) && Runs.Reaches(Next, n, n') && SetUps(n', v) == SetUps(n, v)
    ensures v in n'.server.host && n'.server.host[v] == n.server.host[v]
  {
    DeployedRun(n, n');
    ConsensusTheorems.HostFinal(Abs(n), Abs(n'), v);
  }

  /** A complete client keeps its result for good. */
  lemma ClientFinal(n: Net, n': Net, v: VoteId, c: u32, r: u16)
    requires Reachable(n) && Holds(n, c, v, r) && Runs.Reaches(Next, n, n')
    ensures Holds(n', c, v, r)
  {
    DeployedRun(n, n');
    ConsensusTheorems.ClientFinal(Abs(n), Abs(n'), v, c);
  }

  // ----- the limit of agreement -----

  /** The clients have queued one request and one vote each, and nothing else. */
  ghost predicate OneRequestAndVotes(n: Net, v: VoteId, q: bytes, r1: u16, r2: u16, r3: u16) {
    && n.links.Keys == {1, 2, 3}
    && Log(n.links[1].a.queued) == [RequestVote(v, q), CastVote(v, r1)]
    && Log(n.links[2].a.queued) == [CastVote(v, r2)] && Log(n.links[3].a.queued) == [CastVote(v, r3)]
  }

  /** One request, whose packet is processed twice, leaves two complete clients with different results. */
  lemma TwoSetUpsDisagree(v: VoteId, q: bytes) returns (n: Net)
    requires |q| <= MAX_PCKT_SIZE - 22
    ensures Reachable(n) && SetUps(n, v) == 2 && OneRequestAndVotes(n, v, q, SAT, UNSAT, UNSAT)
    ensures Holds(n, 1, v, SAT) && Holds(n, 2, v, UNSAT)
  {
    var s := Disagreement.TwoSetUpsDisagree(v, q);
    assert Short(s);
    n := DeploymentRealizesConsensus(s);
    SeenFromAbove(n, s, v, q, SAT, UNSAT, UNSAT);
  }

  lemma SeenFromAbove(n: Net, s: Consensus.Sys, v: VoteId, q: bytes, r1: u16, r2: u16, r3: u16)
    requires Abs(n) == s && Disagreement.OneRequestAndVotes(s, v, q, r1, r2, r3)
    ensures OneRequestAndVotes(n, v, q, r1, r2, r3)
  {
    assert n.links.Keys == s.up.Keys;
    assert Log(n.links[1].a.queued) == s.up[1] && Log(n.links[2].a.queued) == s.up[2];
    assert Log(n.links[3].a.queued) == s.up[3];
  }

  ghost predicate Agrees(n: Net, v: VoteId) {
    forall c, d, q, r | Holds(n, c, v, q) && Holds(n, d, v, r) :: q == r
  }

  /** Over the links too, agreement on a VoteID set up at most `k` times is guaranteed exactly when k <= 1. */
  lemma AgreementExactly(v: VoteId, k: nat)
    ensures (forall n | Reachable(n) && SetUps(n, v) <= k :: Agrees(n, v)) <==> k <= 1
  {
    if k <= 1 {
      forall n, c, d, q, r | Reachable(n) && SetUps(n, v) <= k && Holds(n, c, v, q) && Holds(n, d, v, r)
        ensures q == r
      {
        ClientsAgree(n, v, c, q);
      }
    } else {
      var n := TwoSetUpsDisagree(v, Disagreement.EXAMPLE);
      assert SAT != UNSAT && !Agrees(n, v);
    }
  }
}
