/** Exactly when a client becomes complete, exactly how often a VoteID is set up, and what follows for agreement. */
module Completion {
  import opened Bytes
  import opened Wrappers
  import opened Packet
  import opened Pip
  import opened Messages
  import opened Referendum
  import opened SlidingWindow
  import opened Deployment
  import opened Processed
  import opened EndToEnd
  import Agreement
  import Arq
  import ArqRepeats
  import ArqTheorems
  import Consensus
  import Disagreement
  import Histories
  import Progress
  import Realization
  import Runs

  predicate HoldsQuestion(p: Pckt, v: VoteId) {
    Held(p).Some? && Histories.IsQuestion(Held(p).value, v)
  }

  predicate HoldsResult(p: Pckt, v: VoteId) {
    Held(p).Some? && Agreement.IsResult(Held(p).value, v)
  }

  predicate HoldsRequest(p: Pckt, v: VoteId) {
    Held(p).Some? && Histories.IsRequest(Held(p).value, v)
  }

  ghost predicate CompleteFor(n: Net, c: u32, v: VoteId) {
    exists r :: Holds(n, c, v, r)
  }

  /** A packet with a result comes somewhere after a packet with a question. */
  ghost predicate ResultAfterQuestion(ps: seq<Pckt>, v: VoteId) {
    exists i, j | 0 <= i < j < |ps| :: HoldsQuestion(ps[i], v) && HoldsResult(ps[j], v)
  }

  lemma SameHistory(ps: seq<Pckt>, log: seq<Msg>, v: VoteId)
    requires |ps| == |log| && forall i | 0 <= i < |ps| :: Held(ps[i]) == Some(log[i])
    ensures ResultAfterQuestion(ps, v) <==> Histories.AskedThenTold(log, v)
  {
    if ResultAfterQuestion(ps, v) {
      var i, j :| 0 <= i < j < |ps| && HoldsQuestion(ps[i], v) && HoldsResult(ps[j], v);
      assert Histories.IsQuestion(log[i], v) && Agreement.IsResult(log[j], v);
    }
    if Histories.AskedThenTold(log, v) {
      var i, j :| 0 <= i < j < |log| && Histories.IsQuestion(log[i], v) && Agreement.IsResult(log[j], v);
      assert HoldsQuestion(ps[i], v) && HoldsResult(ps[j], v);
    }
  }

  /** In every run a client is complete for `v` if and only if it has processed a result for `v` after a question
      for `v`. */
  lemma CompleteExactly(n: Net, c: u32, v: VoteId)
    requires Reachable(n) && c in n.links
    ensures CompleteFor(n, c, v) <==> ResultAfterQuestion(n.links[c].a.processed, v)
  {
    DeploymentRefinesConsensus(n);
    Histories.CompleteExactly(Abs(n), c, v);
    CompleteAbove(n, c, v);
    ToldAt(n, c, 0);
    forall i | 0 <= i < |n.links[c].a.processed| ensures Held(n.links[c].a.processed[i]) == Some(Abs(n).told[c][i]) {
      ToldAt(n, c, i);
    }
    SameHistory(n.links[c].a.processed, Abs(n).told[c], v);
  }

  lemma CompleteAbove(n: Net, c: u32, v: VoteId)
    ensures CompleteFor(n, c, v) <==> Agreement.Complete(Abs(n), c, v)
  {
    if Agreement.Complete(Abs(n), c, v) {
      assert Holds(n, c, v, n.clients[c].guest[v].result);
    }
  }

  // ----- a participant that stays behind -----

  /** Two different positions of a log that hold results for `v` make its count two. */
  lemma {:induction false} CountTwo(log: seq<Msg>, v: VoteId, i: nat, j: nat)
    requires i < j < |log| && Agreement.IsResult(log[i], v) && Agreement.IsResult(log[j], v)
    ensures Agreement.CountResults(log, v) >= 2
    decreases |log|
  {
    var last := |log| - 1;
    if j == last {
      Agreement.CountPositive(log[..last], log[i], v);
    } else {
      CountTwo(log[..last], v, i, j);
    }
  }

  /** Without a repetition at the client, and with one set-up, it processes at most one result. */
  lemma OneResultProcessed(n: Net, c: u32, v: VoteId, i: nat, j: nat)
    requires Reachable(n) && c in n.links && SetUps(n, v) <= 1 && |n.links[c].b.queued| <= TWO_TO_THE_32
    requires ArqRepeats.NoRepeats(n.links[c].a) && i < |n.links[c].a.processed| && j < |n.links[c].a.processed|
    requires HoldsResult(n.links[c].a.processed[i], v) && HoldsResult(n.links[c].a.processed[j], v)
    ensures i == j
  {
    var l := n.links[c];
    LinkOk(n, c);
    ProcessedAtNumber(l, i);
    ProcessedAtNumber(l, j);
    var p, q := l.a.processed[i].header.packetNum, l.a.processed[j].header.packetNum;
    LogAligned(l.b.queued, p);
    LogAligned(l.b.queued, q);
    ResultsBounded(n, v, c);
    if p < q {
      CountTwo(Log(l.b.queued), v, p, q);
    } else if q < p {
      CountTwo(Log(l.b.queued), v, q, p);
    }
  }

  lemma TooEarly(n: Net, c: u32, v: VoteId, j: nat)
    requires Reachable(n) && c in n.links && SetUps(n, v) <= 1 && |n.links[c].b.queued| <= TWO_TO_THE_32
    requires ArqRepeats.NoRepeats(n.links[c].a) && j < |n.links[c].a.processed|
    requires HoldsResult(n.links[c].a.processed[j], v)
    requires forall i | 0 <= i < j :: !HoldsQuestion(n.links[c].a.processed[i], v)
    ensures !CompleteFor(n, c, v)
  {
    CompleteExactly(n, c, v);
    var ps := n.links[c].a.processed;
    if ResultAfterQuestion(ps, v) {
      var i, k :| 0 <= i < k < |ps| && HoldsQuestion(ps[i], v) && HoldsResult(ps[k], v);
      OneResultProcessed(n, c, v, j, k);
    }
  }

  /** Client `c` has processed `ps`, and perhaps more since. */
  ghost predicate HasProcessed(n: Net, c: u32, ps: seq<Pckt>) {
    c in n.links && ps <= n.links[c].a.processed
  }

  lemma ProcessedStays(n: Net, n': Net, c: u32, ps: seq<Pckt>)
    requires HasProcessed(n, c, ps) && Next(n, n')
    ensures HasProcessed(n', c, ps)
  {
    var act :| Enabled(n, act) && n' == Apply(n, act);
    LinksStay(n, act);
    LinkStep(n, act, c);
    MovesProcess(n.links[c], n'.links[c]);
  }

  lemma MovesProcess(l: Arq.Link, l': Arq.Link)
    requires LinkMoves(l, l')
    ensures l.a.processed <= l'.a.processed
  {
    var m :| AtMostOneAct(l, m) && AtMostOneQueued(m, l');
    ActProcesses(l, m);
  }

  lemma ActProcesses(l: Arq.Link, m: Arq.Link)
    requires AtMostOneAct(l, m)
    ensures l.a.processed <= m.a.processed
  {}

  /** With one set-up, a client that has processed its result before any question is complete in no later state of any
      run, up to the time when a packet comes again after it was processed. */
  lemma TooEarlyForGood(n: Net, n': Net, c: u32, v: VoteId, j: nat)
    requires Reachable(n) && c in n.links && j < |n.links[c].a.processed| && HoldsResult(n.links[c].a.processed[j], v)
    requires forall i | 0 <= i < j :: !HoldsQuestion(n.links[c].a.processed[i], v)
    requires Runs.Reaches(Next, n, n') && SetUps(n', v) <= 1
    requires c in n'.links && ArqRepeats.NoRepeats(n'.links[c].a) && |n'.links[c].b.queued| <= TWO_TO_THE_32
    ensures !CompleteFor(n', c, v)
  {
    var ps := n.links[c].a.processed;
    var has := x => HasProcessed(x, c, ps);
    forall x, y | has(x) && Next(x, y) ensures has(y) {
      ProcessedStays(x, y, c, ps);
    }
    var k: nat :| Runs.ReachesIn(Next, n, n', k);
    Runs.InductiveAlong(Next, has, n, n', k);
    Runs.ReachableMore(Init, Next, n, n');
    TooEarly(n', c, v, j);
  }

  /** Everything queued for client `c` has been acknowledged, and nothing more waits or runs there. */
  ghost predicate Quiet(l: Arq.Link) {
    && (forall i: u32 | i < |l.b.queued| :: Acked(l.b.sender, i))
    && l.a.receiver.incoming == map[] && l.a.pending == multiset{}
  }

  ghost predicate StaysBehind(n: Net, c: u32, v: VoteId, q: bytes) {
    && c in n.links && c in n.clients && v in n.clients[c].guest && n.clients[c].guest[v] == ClientRef(q, UNSAT, false)
    && |n.links[c].a.processed| == 2
    && Held(n.links[c].a.processed[0]) == Some(AnnounceResult(v, SAT))
    && Held(n.links[c].a.processed[1]) == Some(AskQuestion(v, q))
    && Quiet(n.links[c])
  }

  /** A run with one set-up: the votes of clients 1 and 2 close it with SAT. Client 3, a participant, processes its
      result and then its question, once each. Both are acknowledged, so nothing is sent to it again, and it is left
      with its own answer UNSAT, unless the network repeats a packet. */
  lemma ResultBeforeQuestion(v: VoteId, q: bytes) returns (n: Net)
    requires |q| <= MAX_PCKT_SIZE - 22
    ensures Reachable(n) && SetUps(n, v) == 1 && OneRequestAndVotes(n, v, q, SAT, SAT, UNSAT)
    ensures ClosedHost(n, v) && n.server.host[v].result == SAT && 3 in n.server.host[v].participants
    ensures StaysBehind(n, 3, v, q) && !CompleteFor(n, 3, v)
  {
    var s := Disagreement.ResultBeforeQuestion(v, q);
    assert Realization.Short(s);
    n := Realization.DeploymentRealizesConsensus(s);
    SeenFromAbove(n, s, v, q, SAT, SAT, UNSAT);
    Behind(n, v, q);
  }

  lemma Behind(n: Net, v: VoteId, q: bytes)
    requires Reachable(n) && Realization.AllPlain(n) && Disagreement.LeftBehind(Abs(n), v, q)
    ensures StaysBehind(n, 3, v, q) && !CompleteFor(n, 3, v)
  {
    assert 3 in n.links && Realization.Plain(n.links[3]);
    ToldAt(n, 3, 0);
    ToldAt(n, 3, 1);
    LinkOk(n, 3);
    QuietWhenBothHandled(n.links[3], v, q);
  }

  lemma QuietWhenBothHandled(l: Arq.Link, v: VoteId, q: bytes)
    requires Arq.Inv(l) && Realization.Plain(l) && LinkDecodes(l)
    requires Log(l.b.queued) == [AskQuestion(v, q), AnnounceResult(v, SAT)] && |l.a.processed| == 2
    requires Held(l.a.processed[0]) == Some(AnnounceResult(v, SAT)) && Held(l.a.processed[1]) == Some(AskQuestion(v, q))
    ensures Quiet(l)
  {
    LogAligned(l.b.queued, 0);
    ProcessedAtNumber(l, 0);
    ProcessedAtNumber(l, 1);
    NumbersSwapped(l, l.a.processed[0], l.a.processed[1], v, q);
    AllAcknowledged(l, l.a.processed[0], l.a.processed[1]);
  }

  lemma NumbersSwapped(l: Arq.Link, p: Pckt, p': Pckt, v: VoteId, q: bytes)
    requires LinkDecodes(l) && Log(l.b.queued) == [AskQuestion(v, q), AnnounceResult(v, SAT)]
    requires p.header.packetNum < |l.b.queued| && p.body == l.b.queued[p.header.packetNum]
    requires p'.header.packetNum < |l.b.queued| && p'.body == l.b.queued[p'.header.packetNum]
    requires Held(p) == Some(AnnounceResult(v, SAT)) && Held(p') == Some(AskQuestion(v, q))
    ensures |l.b.queued| == 2 && p.header.packetNum == 1 && p'.header.packetNum == 0
  {
    LogAligned(l.b.queued, 0);
    LogAligned(l.b.queued, 1);
  }

  lemma AllAcknowledged(l: Arq.Link, p: Pckt, q: Pckt)
    requires Realization.Plain(l) && |l.b.queued| == 2 && p in l.a.processed && q in l.a.processed
    requires p.header.packetNum == 1 && q.header.packetNum == 0
    ensures Quiet(l)
  {
    var f := Arq.Flip(l);
    assert Realization.TidyToB(f) && f.a == l.b && f.b == l.a;
    assert Acked(f.a.sender, p.header.packetNum) && Acked(f.a.sender, q.header.packetNum);
  }

  // ----- completion is never out of reach -----

  /** There is room for one more packet on every queue. */
  ghost predicate RoomLeft(n: Net) {
    forall c | c in n.links ::
      |n.links[c].a.queued| < Realization.MOST_PACKETS && |n.links[c].b.queued| < Realization.MOST_PACKETS
  }

  ghost predicate AllComplete(n: Net, v: VoteId) {
    v in n.server.host && forall c | c in n.server.host[v].participants :: CompleteFor(n, c, v)
  }

  ghost predicate RoomInLogs(logs: map<u32, seq<Msg>>) {
    forall c | c in logs :: |logs[c]| < Realization.MOST_PACKETS
  }

  lemma RoomAbove(n: Net)
    requires Reachable(n) && RoomLeft(n)
    ensures RoomInLogs(Abs(n).up) && RoomInLogs(Abs(n).down)
  {
    forall c | c in n.links
      ensures |Abs(n).up[c]| < Realization.MOST_PACKETS && |Abs(n).down[c]| < Realization.MOST_PACKETS
    {
      QueueLengths(n, c);
    }
  }

  lemma StillShort(s: Consensus.Sys, t: Consensus.Sys)
    requires RoomInLogs(s.up) && RoomInLogs(s.down)
    requires Progress.OneMoreEach(s.up, t.up) && Progress.OneMoreEach(s.down, t.down)
    ensures Realization.Short(t)
  {}

  /** From every reachable state with room left, whatever was lost or came too late, a referendum with participants can
      be closed and its result taken over by all of them, without being set up again. */
  lemma CanBeCompleted(n: Net, v: VoteId) returns (n': Net)
    requires Reachable(n) && RoomLeft(n) && v in n.server.host && n.server.host[v].participants != {}
    ensures Runs.Reaches(Next, n, n') && SetUps(n', v) == SetUps(n, v)
    ensures ClosedHost(n', v) && AllComplete(n', v)
    ensures n'.server.host[v].participants == n.server.host[v].participants
  {
    DeploymentRefinesConsensus(n);
    var t := Progress.CanBeCompleted(Abs(n), v);
    RoomAbove(n);
    StillShort(Abs(n), t);
    n' := Realization.RealizeRun(n, t);
    AllCompleteAbove(n', t, v);
    assert Consensus.Created(t, v) == SetUps(n', v) && Consensus.Created(Abs(n), v) == SetUps(n, v);
  }

  lemma AllCompleteAbove(n: Net, t: Consensus.Sys, v: VoteId)
    requires Abs(n) == t && v in t.server.host
    requires forall c | c in t.server.host[v].participants :: Agreement.Complete(t, c, v)
    ensures AllComplete(n, v)
  {
    forall c | c in n.server.host[v].participants ensures CompleteFor(n, c, v) {
      assert Agreement.Complete(t, c, v);
      assert Holds(n, c, v, n.clients[c].guest[v].result);
    }
  }

  // ----- set-ups -----

  /** Where the server has processed packets that hold a request for `v`: the client and the position. */
  function RequestsProcessed(n: Net, v: VoteId): set<(u32, int)> {
    set c, i | c in n.links && 0 <= i < |n.links[c].b.processed| && HoldsRequest(n.links[c].b.processed[i], v) :: (c, i)
  }

  lemma SameRequest(ps: seq<Pckt>, log: seq<Msg>, i: int, v: VoteId)
    requires |ps| == |log| && (0 <= i < |ps| ==> Held(ps[i]) == Some(log[i]))
    ensures 0 <= i < |ps| && HoldsRequest(ps[i], v) <==> 0 <= i < |log| && Histories.IsRequest(log[i], v)
  {}

  lemma SameRequestAt(n: Net, v: VoteId, c: u32, i: int)
    requires Reachable(n)
    ensures (c, i) in RequestsProcessed(n, v) <==> (c, i) in Histories.RequestsHeard(Abs(n).heard, v)
  {
    assert Abs(n).heard.Keys == n.links.Keys;
    if c in n.links {
      HeardAt(n, c, if i < 0 then 0 else i);
      SameRequest(n.links[c].b.processed, Abs(n).heard[c], i, v);
    }
  }

  lemma SameRequests(n: Net, v: VoteId)
    requires Reachable(n)
    ensures RequestsProcessed(n, v) == Histories.RequestsHeard(Abs(n).heard, v)
  {
    forall x: (u32, int) ensures x in RequestsProcessed(n, v) <==> x in Histories.RequestsHeard(Abs(n).heard, v) {
      SameRequestAt(n, v, x.0, x.1);
    }
  }

  /** In every run a VoteID has been set up once for each processed packet with a request for it. */
  lemma SetUpsExactly(n: Net, v: VoteId)
    requires Reachable(n)
    ensures SetUps(n, v) == |RequestsProcessed(n, v)|
  {
    DeploymentRefinesConsensus(n);
    Histories.SetUpsExactly(Abs(n), v);
    SameRequests(n, v);
  }

  /** All clients together have queued at most one request for `v`. */
  ghost predicate OneRequest(n: Net, v: VoteId) {
    forall c, d, i, j | c in n.links && d in n.links && 0 <= i < |n.links[c].a.queued| && 0 <= j < |n.links[d].a.queued|
                     && IsRequestBody(n.links[c].a.queued[i], v) && IsRequestBody(n.links[d].a.queued[j], v) ::
      c == d && i == j
  }

  predicate IsRequestBody(b: bytes, v: VoteId) {
    Decode(b).Some? && Histories.IsRequest(Decode(b).value, v)
  }

  /** No server side has processed, or is about to process, a packet twice, and no number has been reused. */
  ghost predicate NothingRepeated(n: Net) {
    forall c | c in n.links :: ArqRepeats.NoRepeats(n.links[c].b) && |n.links[c].a.queued| <= TWO_TO_THE_32
  }

  lemma OneSetUp(n: Net, v: VoteId)
    requires Reachable(n) && OneRequest(n, v) && NothingRepeated(n)
    ensures SetUps(n, v) <= 1
  {
    SetUpsExactly(n, v);
    var all := RequestsProcessed(n, v);
    if all != {} {
      var x :| x in all;
      forall y | y in all ensures y == x {
        SameRequestPacket(n, v, x.0, x.1, y.0, y.1);
      }
      assert all == {x};
    }
  }

  lemma SameRequestPacket(n: Net, v: VoteId, c: u32, i: nat, d: u32, j: nat)
    requires Reachable(n) && OneRequest(n, v) && NothingRepeated(n) && c in n.links && d in n.links
    requires i < |n.links[c].b.processed| && j < |n.links[d].b.processed|
    requires HoldsRequest(n.links[c].b.processed[i], v) && HoldsRequest(n.links[d].b.processed[j], v)
    ensures c == d && i == j
  {
    HeardAtNumber(n, c, i);
    HeardAtNumber(n, d, j);
    var p, q := n.links[c].b.processed[i].header.packetNum, n.links[d].b.processed[j].header.packetNum;
    assert IsRequestBody(n.links[c].a.queued[p], v) && IsRequestBody(n.links[d].a.queued[q], v);
    assert ArqRepeats.NoRepeats(n.links[c].b);
  }

  /** The two limits joined: if `v` was requested once and no server side has processed a packet twice, all complete
      clients hold the result of the closed host. */
  lemma AgreementWithoutRepeats(n: Net, v: VoteId, c: u32, r: u16)
    requires Reachable(n) && OneRequest(n, v) && NothingRepeated(n) && Holds(n, c, v, r)
    ensures ClosedHost(n, v) && n.server.host[v].result == r
    ensures forall d, q | Holds(n, d, v, q) :: q == r
  {
    OneSetUp(n, v);
    ClientsAgree(n, v, c, r);
  }
}
