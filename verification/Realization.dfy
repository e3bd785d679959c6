/** The converse of the refinement: what the protocol can do over abstract channels, the deployed system can do over
    its lossy links, as long as packet numbers last. */
module Realization {
  import opened Bytes
  import opened Wrappers
  import opened Pip
  import opened Messages
  import opened Referendum
  import opened Deployment
  import opened SlidingWindow
  import Arq
  import Consensus
  import Delivery
  import Processed
  import Runs

  const MOST_PACKETS := TWO_TO_THE_32 - 5

  /** As long as all of a's packets fit into one window: no handler is left over at b, and what b has processed has
      been acknowledged. */
  ghost predicate TidyToB(l: Arq.Link) {
    |l.a.queued| <= WINDOW_SIZE ==>
      && l.b.pending == multiset{} && l.a.sender.nextPcktNum == |l.a.queued|
      && (forall i: u32 | Acked(l.a.sender, i) :: i < |l.a.queued|)
      && (forall p | p in l.b.processed :: Acked(l.a.sender, p.header.packetNum))
  }

  ghost predicate Tidy(l: Arq.Link) {
    TidyToB(l) && TidyToB(Arq.Flip(l))
  }

  /** Both receive buffers are empty and the link is tidy. */
  ghost predicate Plain(l: Arq.Link) {
    l.a.receiver.incoming == map[] && l.b.receiver.incoming == map[] && Tidy(l)
  }

  ghost predicate AllPlain(n: Net) {
    forall c | c in n.links :: Plain(n.links[c])
  }

  /** A run from `n` ends in `n'`, which is state `s` as seen from above; if nothing waited in `n`, nothing does now. */
  ghost predicate Follows(n: Net, n': Net, s: Consensus.Sys) {
    Runs.Reaches(Next, n, n') && Reachable(n') && Abs(n') == s && (AllPlain(n) ==> AllPlain(n'))
  }

  ghost predicate Short(s: Consensus.Sys) {
    && (forall c | c in s.up :: |s.up[c]| <= MOST_PACKETS)
    && (forall c | c in s.down :: |s.down[c]| <= MOST_PACKETS)
  }

  lemma QueueTidy(l: Arq.Link, body: bytes)
    requires Tidy(l)
    ensures Tidy(Arq.ActA(l, Arq.Queue(body)))
  {
    var l' := Arq.ActA(l, Arq.Queue(body));
    if |l'.a.queued| <= WINDOW_SIZE {
      forall i: u32 | Acked(l'.a.sender, i) ensures Acked(l.a.sender, i) {}
      forall i: u32 | Acked(l.a.sender, i) ensures Acked(l'.a.sender, i) {}
    }
  }

  lemma QueuePlain(l: Arq.Link, side: Arq.Side, m: Msg)
    requires Plain(l)
    ensures Plain(QueueOn(l, side, m))
  {
    if side == Arq.A {
      QueueTidy(l, Encode(m));
    } else {
      assert Arq.Flip(Arq.Flip(l)) == l;
      QueueTidy(Arq.Flip(l), Encode(m));
      assert Arq.Flip(QueueOn(l, side, m)) == Arq.ActA(Arq.Flip(l), Arq.Queue(Encode(m)));
    }
  }

  /** A message in the log sits at some position of the queue, at most the log's length. */
  lemma {:induction false} PositionOf(bodies: seq<bytes>, m: Msg) returns (j: nat)
    requires m in Log(bodies)
    ensures j < |bodies| && Decode(bodies[j]) == Some(m)
  {
    var last := |bodies| - 1;
    if Decode(bodies[last]) == Some(m) {
      j := last;
    } else {
      j := PositionOf(bodies[..last], m);
    }
  }

  // ----- moving one link of the system -----

  function WithLink(n: Net, c: u32, l: Arq.Link): Net {
    n.(links := n.links[c := l])
  }

  lemma LiftStep(n: Net, c: u32, l: Arq.Link, l': Arq.Link)
    requires c in n.links && Delivery.NetStep(l, l')
    ensures Next(WithLink(n, c, l), WithLink(n, c, l'))
  {
    var side, act: Arq.Action :|
      !act.Queue? && !act.Process? && Arq.CanApply(l, side, act) && l' == Arq.Apply(l, side, act);
    var m := WithLink(n, c, l);
    assert m.links[c] == l && Enabled(m, Internal(c, side, act));
    assert m.links[c := l'] == n.links[c := l'];
    assert Apply(m, Internal(c, side, act)) == WithLink(n, c, l');
  }

  lemma Lift(n: Net, c: u32, l': Arq.Link)
    requires c in n.links && Delivery.NetRun(n.links[c], l')
    ensures Runs.Reaches(Next, n, WithLink(n, c, l')) && Abs(WithLink(n, c, l')) == Abs(n)
  {
    var lift := l => WithLink(n, c, l);
    forall x, y | Delivery.NetStep(x, y) ensures Next(lift(x), lift(y)) {
      LiftStep(n, c, x, y);
    }
    Runs.ReachesMapped(Delivery.NetStep, Next, lift, n.links[c], l');
    assert WithLink(n, c, n.links[c]) == n;
    SameQueues(n.links, c, l');
    SameHistories(n.links, c, l');
  }

  /** An enabled action of the deployed system is a step of it, and leads on within its runs. */
  lemma TakeStep(n: Net, act: Action)
    requires Enabled(n, act)
    ensures Next(n, Apply(n, act))
    ensures Reachable(n) ==> Reachable(Apply(n, act))
  {
    assert Next(n, Apply(n, act));
    if Reachable(n) {
      Runs.ReachableNext(Init, Next, n, Apply(n, act));
    }
  }

  lemma LinkInv(n: Net, c: u32)
    requires Reachable(n) && c in n.links
    ensures Arq.Inv(n.links[c]) && n.links.Keys == n.clients.Keys
  {
    DeploymentRefinesConsensus(n);
  }

  // ----- one packet waiting on one link -----

  /** Message `m` waits on side B under number `j`. */
  ghost predicate WaitsAtB(l: Arq.Link, j: u32, m: Msg) {
    j in l.b.receiver.incoming && Buffered(l.b, j) == Some(m)
  }

  ghost predicate WaitsAtA(l: Arq.Link, j: u32, m: Msg) {
    WaitsAtB(Arq.Flip(l), j, m)
  }

  /** Nothing waits but number `j` on side B. */
  ghost predicate OnlyAtB(l: Arq.Link, j: u32) {
    && l.a.receiver.incoming == map[] && l.b.receiver.incoming.Keys == {j}
    && l.b.receiver.incoming[j].header.packetNum == j
    && (|l.a.queued| <= WINDOW_SIZE ==> Acked(l.a.sender, j))
    && Tidy(l)
  }

  ghost predicate OnlyAtA(l: Arq.Link, j: u32) {
    OnlyAtB(Arq.Flip(l), j)
  }

  lemma BringToB(l: Arq.Link, m: Msg) returns (l': Arq.Link, j: u32)
    requires Arq.Inv(l) && m in Log(l.a.queued) && |l.a.queued| <= MOST_PACKETS
    ensures Delivery.NetRun(l, l') && WaitsAtB(l', j, m) && (Plain(l) ==> OnlyAtB(l', j))
  {
    j := PositionOf(l.a.queued, m);
    l' := Delivery.Deliver(l, j);
    if Plain(l) {
      DeliveredTidy(l, l', j);
    }
  }

  lemma DeliveredTidy(l: Arq.Link, l': Arq.Link, j: u32)
    requires Tidy(l) && j < |l.a.queued| && Delivery.NetRun(l, l')
    requires l'.b.sender == l.b.sender && l'.a.pending == l.a.pending
    requires |l.a.queued| <= WINDOW_SIZE ==> l'.a.sender == AckStep(l.a.sender, j) && l'.b.pending == l.b.pending
    ensures Tidy(l')
  {
    if |l.a.queued| <= WINDOW_SIZE {
      forall i: u32 | Acked(l.a.sender, i) ensures Acked(l'.a.sender, i) {}
      forall i: u32 | Acked(l'.a.sender, i) ensures Acked(l.a.sender, i) || i == j {}
    }
  }

  lemma BringToA(l: Arq.Link, m: Msg) returns (l': Arq.Link, j: u32)
    requires Arq.Inv(l) && m in Log(l.b.queued) && |l.b.queued| <= MOST_PACKETS
    ensures Delivery.NetRun(l, l') && WaitsAtA(l', j, m) && (Plain(l) ==> OnlyAtA(l', j))
  {
    assert Arq.Flip(Arq.Flip(l)) == l;
    var f;
    f, j := BringToB(Arq.Flip(l), m);
    l' := Arq.Flip(f);
    assert Arq.Flip(l') == f;
    Delivery.NetRunFlip(Arq.Flip(l), f);
  }

  lemma ProcessedPlain(l: Arq.Link, j: u32)
    requires OnlyAtB(l, j)
    ensures Plain(Arq.Apply(l, Arq.B, Arq.Process(j)))
  {
    var l' := Arq.Apply(l, Arq.B, Arq.Process(j));
    assert l'.a.sender == l.a.sender;
    assert l'.b.processed == l.b.processed + [l.b.receiver.incoming[j]];
  }

  lemma AnsweredPlain(l: Arq.Link, j: u32)
    requires OnlyAtA(l, j)
    ensures Plain(Arq.Apply(l, Arq.A, Arq.Process(j)))
  {
    ProcessedPlain(Arq.Flip(l), j);
    assert Arq.Flip(Arq.Flip(l)) == l;
    assert Arq.Apply(Arq.Flip(l), Arq.B, Arq.Process(j)) == Arq.Flip(Arq.Apply(l, Arq.A, Arq.Process(j)));
  }

  ghost predicate OthersPlain(n: Net, c: u32) {
    forall d | d in n.links && d != c :: Plain(n.links[d])
  }

  lemma QueuesShort(n: Net, c: u32)
    requires Reachable(n) && Short(Abs(n)) && c in n.links
    ensures |n.links[c].a.queued| <= MOST_PACKETS && |n.links[c].b.queued| <= MOST_PACKETS
  {
    Processed.QueueLengths(n, c);
  }

  // ----- the server handles a message -----

  /** The packet that holds the message is brought into the server's buffer. */
  lemma BringUp(n: Net, c: u32, m: Msg) returns (n': Net, j: u32)
    requires Reachable(n) && Short(Abs(n)) && c in n.links && m in Log(n.links[c].a.queued)
    ensures Runs.Reaches(Next, n, n') && Abs(n') == Abs(n) && n'.links.Keys == n.links.Keys
    ensures WaitsAtB(n'.links[c], j, m) && (AllPlain(n) ==> OthersPlain(n', c) && OnlyAtB(n'.links[c], j))
  {
    QueuesShort(n, c);
    LinkInv(n, c);
    var l';
    l', j := BringToB(n.links[c], m);
    Lift(n, c, l');
    n' := WithLink(n, c, l');
  }

  lemma HandlePlain(n: Net, c: u32, j: u32, m: Msg, ch: Choice)
    requires c in n.links && NodeOk(n.server) && OthersPlain(n, c)
    requires WaitsAtB(n.links[c], j, m) && OnlyAtB(n.links[c], j)
    ensures AllPlain(ServerProcess(n, c, j, ch))
  {
    var taken := Arq.Apply(n.links[c], Arq.B, Arq.Process(j));
    ProcessedPlain(n.links[c], j);
    SentPlain(n.links[c := taken], Sends(n.server, c, m, ch));
  }

  lemma SentPlain(links: map<u32, Arq.Link>, sends: map<u32, Msg>)
    requires forall d | d in links :: Plain(links[d])
    ensures forall d | d in links :: Plain(QueueAll(links, sends)[d])
  {
    forall d | d in links ensures Plain(QueueAll(links, sends)[d]) {
      if d in sends {
        QueuePlain(links[d], Arq.B, sends[d]);
      }
    }
  }

  lemma RealizeServer(n: Net, c: u32, m: Msg, ch: Choice) returns (n': Net)
    requires Reachable(n) && Short(Abs(n)) && Consensus.Enabled(Abs(n), Consensus.ServerHandles(c, m, ch))
    ensures Follows(n, n', Consensus.ServerStep(Abs(n), c, m, ch))
  {
    var n1, j := BringUp(n, c, m);
    var act := ServerProcesses(c, j, ch);
    assert Enabled(n1, act);
    Runs.ReachableMore(Init, Next, n, n1);
    TakeStep(n1, act);
    HeardWhenReached(n1);
    Runs.ReachesMore(Next, n, n1, Apply(n1, act));
    AbsServer(n1, c, j, ch);
    if AllPlain(n) {
      HandlePlain(n1, c, j, m, ch);
    }
    n' := ServerProcess(n1, c, j, ch);
  }

  lemma HeardWhenReached(n: Net)
    requires Reachable(n)
    ensures AllHeard(n)
  {
    DeploymentRefinesConsensus(n);
    LinksHeard(n);
  }

  // ----- a client handles a message -----

  lemma BringDown(n: Net, c: u32, m: Msg) returns (n': Net, j: u32)
    requires Reachable(n) && Short(Abs(n)) && c in n.links && m in Log(n.links[c].b.queued)
    ensures Runs.Reaches(Next, n, n') && Abs(n') == Abs(n) && n'.links.Keys == n.links.Keys
    ensures WaitsAtA(n'.links[c], j, m) && (AllPlain(n) ==> OthersPlain(n', c) && OnlyAtA(n'.links[c], j))
  {
    QueuesShort(n, c);
    LinkInv(n, c);
    var l';
    l', j := BringToA(n.links[c], m);
    Lift(n, c, l');
    n' := WithLink(n, c, l');
  }

  lemma AnswerPlain(n: Net, c: u32, j: u32, m: Msg, ch: Choice)
    requires c in n.links && c in n.clients && NodeOk(n.clients[c]) && OthersPlain(n, c)
    requires WaitsAtA(n.links[c], j, m) && OnlyAtA(n.links[c], j)
    ensures AllPlain(ClientProcess(n, c, j, ch))
  {
    var taken, sends := Arq.Apply(n.links[c], Arq.A, Arq.Process(j)), Sends(n.clients[c], n.serverId, m, ch);
    AnsweredPlain(n.links[c], j);
    if n.serverId in sends {
      QueuePlain(taken, Arq.A, sends[n.serverId]);
    }
  }

  lemma RealizeClient(n: Net, c: u32, m: Msg, ch: Choice) returns (n': Net)
    requires Reachable(n) && Short(Abs(n)) && Consensus.Enabled(Abs(n), Consensus.ClientHandles(c, m, ch))
    ensures Follows(n, n', Consensus.ClientStep(Abs(n), c, m, ch))
  {
    var n1, j := BringDown(n, c, m);
    var act := ClientProcesses(c, j, ch);
    assert Enabled(n1, act);
    Runs.ReachableMore(Init, Next, n, n1);
    TakeStep(n1, act);
    HeardWhenReached(n1);
    Runs.ReachesMore(Next, n, n1, Apply(n1, act));
    AbsClient(n1, c, j, ch);
    if AllPlain(n) {
      AnswerPlain(n1, c, j, m, ch);
    }
    n' := ClientProcess(n1, c, j, ch);
  }

  // ----- something is queued -----

  lemma QueuedPlain(n: Net, c: u32, side: Arq.Side, m: Msg)
    requires AllPlain(n) && c in n.links
    ensures AllPlain(WithLink(n, c, QueueOn(n.links[c], side, m)))
  {
    QueuePlain(n.links[c], side, m);
  }

  lemma RealizeQueueing(n: Net, act: Consensus.Action) returns (n': Net)
    requires Reachable(n) && Consensus.Enabled(Abs(n), act)
    requires act.ClientRequests? || act.ClientGreets? || act.ServerGreets?
    ensures Follows(n, n', Consensus.Apply(Abs(n), act))
  {
    var step;
    match act {
      case ClientRequests(c, v, q) =>
        step := ClientRequests(c, v, q);
        AbsUp(n, c, RequestVote(v, q));
        if AllPlain(n) { QueuedPlain(n, c, Arq.A, RequestVote(v, q)); }
      case ClientGreets(c, f) =>
        step := ClientGreets(c, f);
        AbsUp(n, c, Greet(f));
        if AllPlain(n) { QueuedPlain(n, c, Arq.A, Greet(f)); }
      case ServerGreets(c, f) =>
        step := ServerGreets(c, f);
        AbsDown(n, c, Greet(f));
        if AllPlain(n) { QueuedPlain(n, c, Arq.B, Greet(f)); }
    }
    TakeStep(n, step);
    n' := Apply(n, step);
    Runs.ReachesOne(Next, n, n');
  }

  // ----- whole runs -----

  lemma RealizeStep(n: Net, act: Consensus.Action) returns (n': Net)
    requires Reachable(n) && Short(Abs(n)) && Consensus.Enabled(Abs(n), act)
    ensures Follows(n, n', Consensus.Apply(Abs(n), act))
  {
    match act {
      case ServerHandles(c, m, ch) => n' := RealizeServer(n, c, m, ch);
      case ClientHandles(c, m, ch) => n' := RealizeClient(n, c, m, ch);
      case _ => n' := RealizeQueueing(n, act);
    }
  }

  lemma LogsGrow(s: Consensus.Sys, act: Consensus.Action)
    requires Consensus.Enabled(s, act) && Short(Consensus.Apply(s, act))
    ensures Short(s)
  {
    var t := Consensus.Apply(s, act);
    forall c | c in s.up ensures |s.up[c]| <= MOST_PACKETS {
      assert c in t.up && |s.up[c]| <= |t.up[c]|;
    }
    forall c | c in s.down ensures |s.down[c]| <= MOST_PACKETS {
      assert c in t.down && |s.down[c]| <= |t.down[c]|;
    }
  }

  /** If the protocol state `s` is short, the system can get from `n` to a state that is `s` as seen from above. */
  ghost predicate RealizableFrom(n: Net, s: Consensus.Sys) {
    Short(s) ==> exists n' :: Follows(n, n', s)
  }

  lemma RealizableNext(n: Net, s: Consensus.Sys, t: Consensus.Sys)
    requires RealizableFrom(n, s) && Consensus.Next(s, t)
    ensures RealizableFrom(n, t)
  {
    if Short(t) {
      var act :| Consensus.Enabled(s, act) && t == Consensus.Apply(s, act);
      LogsGrow(s, act);
      var m :| Follows(n, m, s);
      var n' := RealizeStep(m, act);
      FollowsOn(n, m, n', s, t);
    }
  }

  lemma FollowsOn(n: Net, m: Net, n': Net, s: Consensus.Sys, t: Consensus.Sys)
    requires Follows(n, m, s) && Follows(m, n', t)
    ensures Follows(n, n', t)
  {
    Runs.ReachesTransitive(Next, n, m, n');
  }

  /** From every reachable state of the deployed system, whatever is lost, buffered or still running, every run of the
      protocol from the state above that stays short can be followed. */
  lemma RealizeRun(n: Net, t: Consensus.Sys) returns (n': Net)
    requires Reachable(n) && Runs.Reaches(Consensus.Next, Abs(n), t) && Short(t)
    ensures Follows(n, n', t)
  {
    Runs.ReachesSelf(Next, n);
    var from := s => RealizableFrom(n, s);
    assert Follows(n, n, Abs(n));
    forall x, y | from(x) && Consensus.Next(x, y) ensures from(y) {
      RealizableNext(n, x, y);
    }
    var k: nat :| Runs.ReachesIn(Consensus.Next, Abs(n), t, k);
    Runs.InductiveAlong(Consensus.Next, from, Abs(n), t, k);
    n' :| Follows(n, n', t);
  }

  /** So from every reachable state on, the two systems have the same runs of that size, as seen from above. */
  lemma SameRuns(n: Net, t: Consensus.Sys)
    requires Reachable(n) && Short(t)
    ensures Runs.Reaches(Consensus.Next, Abs(n), t) <==> exists n' :: Runs.Reaches(Next, n, n') && Abs(n') == t
  {
    if Runs.Reaches(Consensus.Next, Abs(n), t) {
      var n' := RealizeRun(n, t);
    }
    if n' :| Runs.Reaches(Next, n, n') && Abs(n') == t {
      DeployedRun(n, n');
    }
  }

  /** Fresh links for all clients. */
  function Start(s: Consensus.Sys): Net {
    Net(s.serverId, s.server, s.clients,
        map c | c in s.clients :: Arq.Link(Arq.NewEndpoint(c), Arq.NewEndpoint(s.serverId), {}, {}),
        s.ballots, s.created, s.snapshots)
  }

  lemma FreshPlain(c: u32, server: u32)
    ensures Plain(Arq.Link(Arq.NewEndpoint(c), Arq.NewEndpoint(server), {}, {}))
  {}

  lemma StartAbove(s: Consensus.Sys)
    requires Consensus.Init(s)
    ensures Abs(Start(s)) == s
  {
    assert Log(Arq.Bodies([])) == [] == Log([]);
  }

  lemma StartReachable(s: Consensus.Sys)
    requires Consensus.Init(s)
    ensures Reachable(Start(s))
  {
    StartAbove(s);
    assert Init(Start(s));
    Runs.ReachesSelf(Next, Start(s));
  }

  lemma StartPlain(s: Consensus.Sys)
    ensures AllPlain(Start(s))
  {
    forall c | c in s.clients ensures Plain(Start(s).links[c]) {
      FreshPlain(c, s.serverId);
    }
  }

  /** Every state the protocol can reach over abstract channels with at most 2^32 - 5 messages each way per client
      is, seen from above, a state the deployed system can reach over its links, with nothing waiting. */
  lemma DeploymentRealizesConsensus(s: Consensus.Sys) returns (n: Net)
    requires Consensus.Reachable(s) && Short(s)
    ensures Reachable(n) && AllPlain(n) && Abs(n) == s
  {
    var s0 :| Consensus.Init(s0) && Runs.Reaches(Consensus.Next, s0, s);
    StartAbove(s0);
    StartReachable(s0);
    StartPlain(s0);
    n := RealizeRun(Start(s0), s);
  }

  /** So from above, the two systems reach exactly the same states of that size. */
  lemma SameStates(s: Consensus.Sys)
    requires Short(s)
    ensures Consensus.Reachable(s) <==> exists n :: Reachable(n) && Abs(n) == s
  {
    if Consensus.Reachable(s) {
      var n := DeploymentRealizesConsensus(s);
    }
    if n :| Reachable(n) && Abs(n) == s {
      DeploymentRefinesConsensus(n);
    }
  }
}
