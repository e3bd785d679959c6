/** The whole system: the vote handlers on top of one ARQ link per client. It refines the system of module Consensus. */
module Deployment {
  import opened Bytes
  import opened Packet
  import opened Wrappers
  import opened Pip
  import opened Messages
  import opened Referendum
  import Arq
  import Consensus
  import Runs

  /** In the link of client `c`, side A is the client and side B the server. */
  datatype Net = Net(
    serverId: u32, server: Node, clients: map<u32, Node>, links: map<u32, Arq.Link>,
    ballots: map<(u32, VoteId), (bytes, u16)>, created: map<VoteId, nat>,
    snapshots: map<VoteId, map<u32, Peer>>)

  datatype Action =
    | Internal(c: u32, side: Arq.Side, act: Arq.Action)
    | ServerProcesses(c: u32, num: u32, ch: Choice)
    | ClientProcesses(c: u32, num: u32, ch: Choice)
    | ClientRequests(c: u32, v: VoteId, question: bytes)
    | ClientGreets(c: u32, features: seq<u16>)
    | ServerGreets(c: u32, features: seq<u16>)

  ghost predicate Init(n: Net) {
    && n.links.Keys == n.clients.Keys
    && (forall c | c in n.links ::
          Arq.Init(n.links[c]) && n.links[c].a.selfId == c && n.links[c].b.selfId == n.serverId)
    && Consensus.Init(Abs(n))
  }

  /** The messages among the bodies queued so far. */
  function Log(bodies: seq<bytes>): seq<Msg> {
    if bodies == [] then []
    else
      var before := Log(bodies[..|bodies| - 1]);
      match Decode(bodies[|bodies| - 1])
      case None => before
      case Some(m) => before + [m]
  }

  /** What the links look like from above: logs of queued and of processed messages. */
  function Abs(n: Net): Consensus.Sys {
    Consensus.Sys(n.serverId, n.server, n.clients, Ups(n.links), Downs(n.links), n.ballots, n.created,
                  n.snapshots, Heards(n.links), Tolds(n.links))
  }

  function Ups(links: map<u32, Arq.Link>): map<u32, seq<Msg>> {
    map c | c in links :: Log(links[c].a.queued)
  }

  function Downs(links: map<u32, Arq.Link>): map<u32, seq<Msg>> {
    map c | c in links :: Log(links[c].b.queued)
  }

  function Heards(links: map<u32, Arq.Link>): map<u32, seq<Msg>> {
    map c | c in links :: Log(Arq.Bodies(links[c].b.processed))
  }

  function Tolds(links: map<u32, Arq.Link>): map<u32, seq<Msg>> {
    map c | c in links :: Log(Arq.Bodies(links[c].a.processed))
  }

  function QueueOn(l: Arq.Link, side: Arq.Side, m: Msg): Arq.Link {
    Arq.Apply(l, side, Arq.Queue(Encode(m)))
  }

  function QueueAll(links: map<u32, Arq.Link>, sends: map<u32, Msg>): map<u32, Arq.Link> {
    map c | c in links :: if c in sends then QueueOn(links[c], Arq.B, sends[c]) else links[c]
  }

  /** What buffered packet `num` of an endpoint asks for. */
  function Buffered(x: Arq.Endpoint, num: u32): Option<Msg>
    requires num in x.receiver.incoming
  {
    Decode(x.receiver.incoming[num].body)
  }

  predicate Enabled(n: Net, act: Action) {
    match act
    case Internal(c, side, a) => c in n.links && !a.Queue? && !a.Process? && Arq.CanApply(n.links[c], side, a)
    case ServerProcesses(c, num, ch) =>
      && c in n.links && num in n.links[c].b.receiver.incoming && NodeOk(n.server) && ch.known.Keys <= n.clients.Keys
      && (Buffered(n.links[c].b, num).Some? ==> Allowed(n.server, c, Buffered(n.links[c].b, num).value, ch))
    case ClientProcesses(c, num, ch) =>
      && c in n.links && c in n.clients && num in n.links[c].a.receiver.incoming && NodeOk(n.clients[c])
      && ch.known.Keys <= {n.serverId}
      && (Buffered(n.links[c].a, num).Some? ==>
            Allowed(n.clients[c], n.serverId, Buffered(n.links[c].a, num).value, ch))
    case ClientRequests(c, _, _) => c in n.links
    case ClientGreets(c, _) => c in n.links
    case ServerGreets(c, _) => c in n.links
  }

  /** `incomingProcessor` on the server's side of the link of `c`. */
  function ServerProcess(n: Net, c: u32, num: u32, ch: Choice): Net
    requires c in n.links && num in n.links[c].b.receiver.incoming && NodeOk(n.server)
  {
    var taken := n.links[c := Arq.Apply(n.links[c], Arq.B, Arq.Process(num))];
    match Buffered(n.links[c].b, num)
    case None => n.(links := taken)
    case Some(m) =>
      var t := Consensus.ServerStep(Abs(n), c, m, ch);
      n.(server := t.server, created := t.created, snapshots := t.snapshots,
         links := QueueAll(taken, Sends(n.server, c, m, ch)))
  }

  /** `incomingProcessor` on client `c`. */
  function ClientProcess(n: Net, c: u32, num: u32, ch: Choice): Net
    requires c in n.links && c in n.clients && num in n.links[c].a.receiver.incoming && NodeOk(n.clients[c])
  {
    var taken := Arq.Apply(n.links[c], Arq.A, Arq.Process(num));
    match Buffered(n.links[c].a, num)
    case None => n.(links := n.links[c := taken])
    case Some(m) =>
      var t, sends := Consensus.ClientStep(Abs(n), c, m, ch), Sends(n.clients[c], n.serverId, m, ch);
      n.(clients := t.clients, ballots := t.ballots,
         links := n.links[c := if n.serverId in sends then QueueOn(taken, Arq.A, sends[n.serverId]) else taken])
  }

  function Apply(n: Net, act: Action): Net
    requires Enabled(n, act)
  {
    match act
    case Internal(c, side, a) => n.(links := n.links[c := Arq.Apply(n.links[c], side, a)])
    case ServerProcesses(c, num, ch) => ServerProcess(n, c, num, ch)
    case ClientProcesses(c, num, ch) => ClientProcess(n, c, num, ch)
    case ClientRequests(c, v, q) => n.(links := n.links[c := QueueOn(n.links[c], Arq.A, RequestVote(v, q))])
    case ClientGreets(c, f) => n.(links := n.links[c := QueueOn(n.links[c], Arq.A, Greet(f))])
    case ServerGreets(c, f) => n.(links := n.links[c := QueueOn(n.links[c], Arq.B, Greet(f))])
  }

  ghost predicate Next(n: Net, n': Net) {
    exists act :: Enabled(n, act) && n' == Apply(n, act)
  }

  ghost predicate Reachable(n: Net) {
    Runs.Reachable(Init, Next, n)
  }

  // ----- logs -----

  lemma LogOneMore(bodies: seq<bytes>, m: Msg)
    requires Fits(m)
    ensures Log(bodies + [Encode(m)]) == Log(bodies) + [m]
  {
    DecodeEncode(m);
    assert (bodies + [Encode(m)])[..|bodies|] == bodies;
  }

  lemma {:induction false} InLog(bodies: seq<bytes>, b: bytes, m: Msg)
    requires b in bodies && Decode(b) == Some(m)
    ensures m in Log(bodies)
  {
    if bodies[|bodies| - 1] != b {
      InLog(bodies[..|bodies| - 1], b, m);
    }
  }

  /** Queueing a message appends it to the log of that side, unless it is too long, and leaves the other side's log. */
  lemma QueueLogs(l: Arq.Link, side: Arq.Side, m: Msg)
    ensures Log(QueueOn(l, side, m).a.queued)
         == if side == Arq.A then Consensus.Push(Log(l.a.queued), m) else Log(l.a.queued)
    ensures Log(QueueOn(l, side, m).b.queued)
         == if side == Arq.B then Consensus.Push(Log(l.b.queued), m) else Log(l.b.queued)
  {
    if Fits(m) {
      LogOneMore(l.a.queued, m);
      LogOneMore(l.b.queued, m);
    }
  }

  /** Every other action leaves both queues alone, and only processing touches what has been processed. */
  lemma OtherLogs(l: Arq.Link, side: Arq.Side, act: Arq.Action)
    requires !act.Queue?
    ensures SameQueued(l, Arq.Apply(l, side, act))
    ensures !act.Process? ==> SameProcessed(l, Arq.Apply(l, side, act))
  {}

  predicate SameQueued(l: Arq.Link, l': Arq.Link) {
    l'.a.queued == l.a.queued && l'.b.queued == l.b.queued
  }

  predicate SameProcessed(l: Arq.Link, l': Arq.Link) {
    l'.a.processed == l.a.processed && l'.b.processed == l.b.processed
  }

  lemma ProcessedOneMore(ps: seq<Pckt>, p: Pckt)
    ensures Log(Arq.Bodies(ps + [p]))
         == match Decode(p.body) case None => Log(Arq.Bodies(ps)) case Some(m) => Log(Arq.Bodies(ps)) + [m]
  {
    assert Arq.Bodies(ps + [p])[..|ps|] == Arq.Bodies(ps);
  }

  /** What side B may process next is a message side A has queued. */
  ghost predicate HeardByB(l: Arq.Link) {
    forall num | num in l.b.receiver.incoming && Buffered(l.b, num).Some? :: Buffered(l.b, num).value in Log(l.a.queued)
  }

  ghost predicate Heard(l: Arq.Link) {
    HeardByB(l) && HeardByB(Arq.Flip(l))
  }

  ghost predicate AllHeard(n: Net) {
    forall c | c in n.links :: Heard(n.links[c])
  }

  lemma ForwardHeard(l: Arq.Link)
    requires Arq.Forward(l)
    ensures HeardByB(l)
  {
    forall num | num in l.b.receiver.incoming && Buffered(l.b, num).Some?
      ensures Buffered(l.b, num).value in Log(l.a.queued)
    {
      BufferedHere(l, num);
    }
  }

  lemma InvHeard(l: Arq.Link)
    requires Arq.Inv(l)
    ensures Heard(l)
  {
    ForwardHeard(l);
    ForwardHeard(Arq.Flip(l));
  }

  lemma LinksHeard(n: Net)
    requires LinksOk(n)
    ensures AllHeard(n)
  {
    forall c | c in n.links ensures Heard(n.links[c]) {
      InvHeard(n.links[c]);
    }
  }

  lemma BufferedHere(l: Arq.Link, num: u32)
    requires Arq.Forward(l)
    ensures num in l.b.receiver.incoming && Buffered(l.b, num).Some? ==> Buffered(l.b, num).value in Log(l.a.queued)
  {
    if num in l.b.receiver.incoming && Buffered(l.b, num).Some? {
      var p := l.b.receiver.incoming[num];
      assert Arq.WireOk(l.a, p);
      assert p.body in l.a.queued;
      InLog(l.a.queued, p.body, Buffered(l.b, num).value);
    }
  }

  // ----- refinement -----

  ghost predicate LinksOk(n: Net) {
    n.links.Keys == n.clients.Keys && forall c | c in n.links :: Arq.Inv(n.links[c])
  }

  /** A step below is one step above, or none. */
  ghost predicate Simulates(n: Net, n': Net) {
    Abs(n') == Abs(n) || Consensus.Next(Abs(n), Abs(n'))
  }

  lemma QueueAllLogs(links: map<u32, Arq.Link>, sends: map<u32, Msg>)
    ensures Ups(QueueAll(links, sends)) == Ups(links)
    ensures Downs(QueueAll(links, sends)) == Consensus.PushAll(Downs(links), sends)
  {
    var after := QueueAll(links, sends);
    forall c | c in links
      ensures Log(after[c].a.queued) == Log(links[c].a.queued)
      ensures Log(after[c].b.queued)
           == if c in sends then Consensus.Push(Log(links[c].b.queued), sends[c]) else Log(links[c].b.queued)
    {
      if c in sends {
        QueueLogs(links[c], Arq.B, sends[c]);
      }
    }
    PointwiseLogs(links, after, sends);
  }

  lemma PointwiseLogs(links: map<u32, Arq.Link>, after: map<u32, Arq.Link>, sends: map<u32, Msg>)
    requires after.Keys == links.Keys
    requires forall c | c in links :: Log(after[c].a.queued) == Log(links[c].a.queued)
    requires forall c | c in links :: Log(after[c].b.queued)
               == if c in sends then Consensus.Push(Log(links[c].b.queued), sends[c]) else Log(links[c].b.queued)
    ensures Ups(after) == Ups(links) && Downs(after) == Consensus.PushAll(Downs(links), sends)
  {}

  /** Replacing one link replaces one log on either side. */
  lemma ReplaceOne(links: map<u32, Arq.Link>, c: u32, l: Arq.Link, up: seq<Msg>, down: seq<Msg>)
    requires c in links && Log(l.a.queued) == up && Log(l.b.queued) == down
    ensures Ups(links[c := l]) == Ups(links)[c := up] && Downs(links[c := l]) == Downs(links)[c := down]
  {}

  lemma KeepOne(links: map<u32, Arq.Link>, c: u32)
    requires c in links
    ensures Ups(links)[c := Log(links[c].a.queued)] == Ups(links)
    ensures Downs(links)[c := Log(links[c].b.queued)] == Downs(links)
  {}

  /** Replacing one link by one with the same queues changes no log. */
  lemma SameQueues(links: map<u32, Arq.Link>, c: u32, l: Arq.Link)
    requires c in links && SameQueued(links[c], l)
    ensures Ups(links[c := l]) == Ups(links) && Downs(links[c := l]) == Downs(links)
  {
    ReplaceOne(links, c, l, Log(links[c].a.queued), Log(links[c].b.queued));
    KeepOne(links, c);
  }

  /** Queueing on one side of a link appends to that one log. */
  lemma QueueUp(links: map<u32, Arq.Link>, c: u32, l: Arq.Link, m: Msg)
    requires c in links && SameQueued(links[c], l)
    ensures Ups(links[c := QueueOn(l, Arq.A, m)]) == Consensus.PushTo(Ups(links), c, m)
    ensures Downs(links[c := QueueOn(l, Arq.A, m)]) == Downs(links)
  {
    QueueLogs(l, Arq.A, m);
    ReplaceOne(links, c, QueueOn(l, Arq.A, m), Consensus.Push(Log(l.a.queued), m), Log(l.b.queued));
    KeepOne(links, c);
  }

  lemma QueueDown(links: map<u32, Arq.Link>, c: u32, l: Arq.Link, m: Msg)
    requires c in links && SameQueued(links[c], l)
    ensures Downs(links[c := QueueOn(l, Arq.B, m)]) == Consensus.PushTo(Downs(links), c, m)
    ensures Ups(links[c := QueueOn(l, Arq.B, m)]) == Ups(links)
  {
    QueueLogs(l, Arq.B, m);
    ReplaceOne(links, c, QueueOn(l, Arq.B, m), Log(l.a.queued), Consensus.Push(Log(l.b.queued), m));
    KeepOne(links, c);
  }

  // What has been processed, as seen from above.

  lemma AllSameHistories(links: map<u32, Arq.Link>, more: map<u32, Arq.Link>)
    requires more.Keys == links.Keys && forall c | c in links :: SameProcessed(links[c], more[c])
    ensures Heards(more) == Heards(links) && Tolds(more) == Tolds(links)
  {
    AllSameHeards(links, more);
    AllSameTolds(links, more);
  }

  lemma AllSameHeards(links: map<u32, Arq.Link>, more: map<u32, Arq.Link>)
    requires more.Keys == links.Keys && forall c | c in links :: more[c].b.processed == links[c].b.processed
    ensures Heards(more) == Heards(links)
  {}

  lemma AllSameTolds(links: map<u32, Arq.Link>, more: map<u32, Arq.Link>)
    requires more.Keys == links.Keys && forall c | c in links :: more[c].a.processed == links[c].a.processed
    ensures Tolds(more) == Tolds(links)
  {}

  lemma SameHistories(links: map<u32, Arq.Link>, c: u32, l: Arq.Link)
    requires c in links && SameProcessed(links[c], l)
    ensures Heards(links[c := l]) == Heards(links) && Tolds(links[c := l]) == Tolds(links)
  {
    AllSameHistories(links, links[c := l]);
  }

  /** The log `logs` with what packet `p` holds added for `c`. */
  function With(logs: map<u32, seq<Msg>>, c: u32, p: Pckt): map<u32, seq<Msg>> {
    match Decode(p.body) case None => logs case Some(m) => Consensus.Handled(logs, c, m)
  }

  lemma OneHistory(links: map<u32, Arq.Link>, c: u32, l: Arq.Link)
    requires c in links
    ensures Heards(links[c := l]) == Heards(links)[c := Log(Arq.Bodies(l.b.processed))]
    ensures Tolds(links[c := l]) == Tolds(links)[c := Log(Arq.Bodies(l.a.processed))]
  {
    OneHeard(links, c, l);
    OneTold(links, c, l);
  }

  lemma OneHeard(links: map<u32, Arq.Link>, c: u32, l: Arq.Link)
    requires c in links
    ensures Heards(links[c := l]) == Heards(links)[c := Log(Arq.Bodies(l.b.processed))]
  {}

  lemma OneTold(links: map<u32, Arq.Link>, c: u32, l: Arq.Link)
    requires c in links
    ensures Tolds(links[c := l]) == Tolds(links)[c := Log(Arq.Bodies(l.a.processed))]
  {}

  lemma TakenByB(links: map<u32, Arq.Link>, c: u32, l: Arq.Link, p: Pckt)
    requires c in links && l.a.processed == links[c].a.processed && l.b.processed == links[c].b.processed + [p]
    ensures Heards(links[c := l]) == With(Heards(links), c, p) && Tolds(links[c := l]) == Tolds(links)
  {
    OneHistory(links, c, l);
    ProcessedOneMore(links[c].b.processed, p);
  }

  lemma TakenByA(links: map<u32, Arq.Link>, c: u32, l: Arq.Link, p: Pckt)
    requires c in links && l.b.processed == links[c].b.processed && l.a.processed == links[c].a.processed + [p]
    ensures Tolds(links[c := l]) == With(Tolds(links), c, p) && Heards(links[c := l]) == Heards(links)
  {
    OneHistory(links, c, l);
    ProcessedOneMore(links[c].a.processed, p);
  }

  lemma QueueAllHistories(links: map<u32, Arq.Link>, sends: map<u32, Msg>)
    ensures Heards(QueueAll(links, sends)) == Heards(links) && Tolds(QueueAll(links, sends)) == Tolds(links)
  {
    QueueAllProcessed(links, sends);
    AllSameHistories(links, QueueAll(links, sends));
  }

  lemma QueueAllProcessed(links: map<u32, Arq.Link>, sends: map<u32, Msg>)
    ensures QueueAll(links, sends).Keys == links.Keys
    ensures forall c | c in links :: SameProcessed(links[c], QueueAll(links, sends)[c])
  {
    forall c | c in links ensures SameProcessed(links[c], QueueAll(links, sends)[c]) {
      if c in sends {
        QueueProcessed(links[c], sends[c]);
      }
    }
  }

  lemma QueueProcessed(l: Arq.Link, m: Msg)
    ensures SameProcessed(l, QueueOn(l, Arq.B, m))
  {}

  lemma ServerMatches(n: Net, c: u32, m: Msg, ch: Choice, taken: Arq.Link, p: Pckt, n': Net)
    requires c in n.links && NodeOk(n.server) && m in Log(n.links[c].a.queued)
    requires Allowed(n.server, c, m, ch) && ch.known.Keys <= n.clients.Keys
    requires SameQueued(n.links[c], taken) && Decode(p.body) == Some(m)
    requires taken.a.processed == n.links[c].a.processed && taken.b.processed == n.links[c].b.processed + [p]
    requires var t := Consensus.ServerStep(Abs(n), c, m, ch);
      n' == n.(server := t.server, created := t.created, snapshots := t.snapshots,
               links := QueueAll(n.links[c := taken], Sends(n.server, c, m, ch)))
    ensures Consensus.Enabled(Abs(n), Consensus.ServerHandles(c, m, ch))
    ensures Abs(n') == Consensus.ServerStep(Abs(n), c, m, ch)
  {
    SameQueues(n.links, c, taken);
    TakenByB(n.links, c, taken, p);
    QueueAllLogs(n.links[c := taken], Sends(n.server, c, m, ch));
    QueueAllHistories(n.links[c := taken], Sends(n.server, c, m, ch));
  }

  lemma ClientMatches(n: Net, c: u32, m: Msg, ch: Choice, taken: Arq.Link, p: Pckt, n': Net)
    requires c in n.links && c in n.clients && NodeOk(n.clients[c]) && m in Log(n.links[c].b.queued)
    requires Allowed(n.clients[c], n.serverId, m, ch) && ch.known.Keys <= {n.serverId}
    requires SameQueued(n.links[c], taken) && Decode(p.body) == Some(m)
    requires taken.b.processed == n.links[c].b.processed && taken.a.processed == n.links[c].a.processed + [p]
    requires var t, sends := Consensus.ClientStep(Abs(n), c, m, ch), Sends(n.clients[c], n.serverId, m, ch);
      n' == n.(clients := t.clients, ballots := t.ballots,
               links := n.links[c := if n.serverId in sends then QueueOn(taken, Arq.A, sends[n.serverId]) else taken])
    ensures Consensus.Enabled(Abs(n), Consensus.ClientHandles(c, m, ch))
    ensures Abs(n') == Consensus.ClientStep(Abs(n), c, m, ch)
  {
    var sends := Sends(n.clients[c], n.serverId, m, ch);
    SameQueues(n.links, c, taken);
    TakenByA(n.links, c, taken, p);
    if n.serverId in sends {
      QueueUp(n.links, c, taken, sends[n.serverId]);
      TakenByA(n.links, c, QueueOn(taken, Arq.A, sends[n.serverId]), p);
    }
  }

  /** Processing a packet on the server is handling its message above, or nothing when it holds none. */
  lemma AbsServer(n: Net, c: u32, num: u32, ch: Choice)
    requires AllHeard(n) && Enabled(n, ServerProcesses(c, num, ch))
    ensures match Buffered(n.links[c].b, num)
      case None => Abs(ServerProcess(n, c, num, ch)) == Abs(n)
      case Some(m) =>
        && Consensus.Enabled(Abs(n), Consensus.ServerHandles(c, m, ch))
        && Abs(ServerProcess(n, c, num, ch)) == Consensus.ServerStep(Abs(n), c, m, ch)
  {
    var taken := Arq.Apply(n.links[c], Arq.B, Arq.Process(num));
    OtherLogs(n.links[c], Arq.B, Arq.Process(num));
    var p := n.links[c].b.receiver.incoming[num];
    match Buffered(n.links[c].b, num)
    case None =>
      SameQueues(n.links, c, taken);
      TakenByB(n.links, c, taken, p);
    case Some(m) => ServerMatches(n, c, m, ch, taken, p, ServerProcess(n, c, num, ch));
  }

  lemma AbsClient(n: Net, c: u32, num: u32, ch: Choice)
    requires AllHeard(n) && Enabled(n, ClientProcesses(c, num, ch))
    ensures match Buffered(n.links[c].a, num)
      case None => Abs(ClientProcess(n, c, num, ch)) == Abs(n)
      case Some(m) =>
        && Consensus.Enabled(Abs(n), Consensus.ClientHandles(c, m, ch))
        && Abs(ClientProcess(n, c, num, ch)) == Consensus.ClientStep(Abs(n), c, m, ch)
  {
    var taken := Arq.Apply(n.links[c], Arq.A, Arq.Process(num));
    OtherLogs(n.links[c], Arq.A, Arq.Process(num));
    assert HeardByB(Arq.Flip(n.links[c]));
    var p := n.links[c].a.receiver.incoming[num];
    match Buffered(n.links[c].a, num)
    case None =>
      SameQueues(n.links, c, taken);
      TakenByA(n.links, c, taken, p);
    case Some(m) => ClientMatches(n, c, m, ch, taken, p, ClientProcess(n, c, num, ch));
  }

  /** Anything a link does besides queueing and processing is invisible above. */
  lemma AbsInternal(n: Net, c: u32, side: Arq.Side, a: Arq.Action)
    requires c in n.links && !a.Queue? && !a.Process?
    ensures Abs(n.(links := n.links[c := Arq.Apply(n.links[c], side, a)])) == Abs(n)
  {
    OtherLogs(n.links[c], side, a);
    SameQueues(n.links, c, Arq.Apply(n.links[c], side, a));
    SameHistories(n.links, c, Arq.Apply(n.links[c], side, a));
  }

  /** Queueing on a client's side, or on the server's, pushes to one log above. */
  lemma AbsUp(n: Net, c: u32, m: Msg)
    requires c in n.links
    ensures Abs(n.(links := n.links[c := QueueOn(n.links[c], Arq.A, m)]))
         == Abs(n).(up := Consensus.PushTo(Abs(n).up, c, m))
  {
    QueueUp(n.links, c, n.links[c], m);
    SameHistories(n.links, c, QueueOn(n.links[c], Arq.A, m));
  }

  lemma AbsDown(n: Net, c: u32, m: Msg)
    requires c in n.links
    ensures Abs(n.(links := n.links[c := QueueOn(n.links[c], Arq.B, m)]))
         == Abs(n).(down := Consensus.PushTo(Abs(n).down, c, m))
  {
    QueueDown(n.links, c, n.links[c], m);
    SameHistories(n.links, c, QueueOn(n.links[c], Arq.B, m));
  }

  lemma Simulate(n: Net, act: Action)
    requires AllHeard(n) && Enabled(n, act)
    ensures Simulates(n, Apply(n, act))
  {
    match act {
      case Internal(c, side, a) => AbsInternal(n, c, side, a);
      case ServerProcesses(c, num, ch) => SimulateServer(n, c, num, ch);
      case ClientProcesses(c, num, ch) => SimulateClient(n, c, num, ch);
      case _ => SimulateQueueing(n, act);
    }
  }

  lemma SimulateServer(n: Net, c: u32, num: u32, ch: Choice)
    requires AllHeard(n) && Enabled(n, ServerProcesses(c, num, ch))
    ensures Simulates(n, ServerProcess(n, c, num, ch))
  {
    AbsServer(n, c, num, ch);
    match Buffered(n.links[c].b, num)
    case None =>
    case Some(m) => NextBy(Abs(n), Consensus.ServerHandles(c, m, ch));
  }

  lemma SimulateClient(n: Net, c: u32, num: u32, ch: Choice)
    requires AllHeard(n) && Enabled(n, ClientProcesses(c, num, ch))
    ensures Simulates(n, ClientProcess(n, c, num, ch))
  {
    AbsClient(n, c, num, ch);
    match Buffered(n.links[c].a, num)
    case None =>
    case Some(m) => NextBy(Abs(n), Consensus.ClientHandles(c, m, ch));
  }

  lemma NextBy(s: Consensus.Sys, act: Consensus.Action)
    requires Consensus.Enabled(s, act)
    ensures Consensus.Next(s, Consensus.Apply(s, act))
  {}

  lemma SimulateQueueing(n: Net, act: Action)
    requires Enabled(n, act) && (act.ClientRequests? || act.ClientGreets? || act.ServerGreets?)
    ensures Simulates(n, Apply(n, act))
  {
    match act {
      case ClientRequests(c, v, q) =>
        AbsUp(n, c, RequestVote(v, q));
        NextBy(Abs(n), Consensus.ClientRequests(c, v, q));
      case ClientGreets(c, f) =>
        AbsUp(n, c, Greet(f));
        NextBy(Abs(n), Consensus.ClientGreets(c, f));
      case ServerGreets(c, f) =>
        AbsDown(n, c, Greet(f));
        NextBy(Abs(n), Consensus.ServerGreets(c, f));
    }
  }

  // ----- every link keeps its own invariant -----

  lemma QueueKeeps(l: Arq.Link, side: Arq.Side, m: Msg)
    requires Arq.Inv(l)
    ensures Arq.Inv(QueueOn(l, side, m))
  {
    Arq.StepInv(l, side, Arq.Queue(Encode(m)));
  }

  /** One action of a link other than queueing. */
  ghost predicate LinkActs(l: Arq.Link, l': Arq.Link) {
    exists side, act: Arq.Action :: !act.Queue? && Arq.CanApply(l, side, act) && l' == Arq.Apply(l, side, act)
  }

  ghost predicate AtMostOneAct(l: Arq.Link, l': Arq.Link) {
    l' == l || LinkActs(l, l')
  }

  ghost predicate AtMostOneQueued(l: Arq.Link, l': Arq.Link) {
    l' == l || exists side, m :: l' == QueueOn(l, side, m)
  }

  /** One step of the system moves a link by at most one such action and then one more message queued. */
  ghost predicate LinkMoves(l: Arq.Link, l': Arq.Link) {
    exists m :: AtMostOneAct(l, m) && AtMostOneQueued(m, l')
  }

  lemma MovesBy(l: Arq.Link, m: Arq.Link, l': Arq.Link)
    requires AtMostOneAct(l, m) && AtMostOneQueued(m, l')
    ensures LinkMoves(l, l')
  {}

  lemma MovesKeep(l: Arq.Link, l': Arq.Link)
    requires Arq.Inv(l) && LinkMoves(l, l')
    ensures Arq.Inv(l')
  {
    var m :| AtMostOneAct(l, m) && AtMostOneQueued(m, l');
    ActKeeps(l, m);
    if l' != m {
      var side, x :| l' == QueueOn(m, side, x);
      QueueKeeps(m, side, x);
    }
  }

  lemma ActKeeps(l: Arq.Link, m: Arq.Link)
    requires Arq.Inv(l) && AtMostOneAct(l, m)
    ensures Arq.Inv(m)
  {
    if m != l {
      var side, act: Arq.Action :| !act.Queue? && Arq.CanApply(l, side, act) && m == Arq.Apply(l, side, act);
      Arq.StepInv(l, side, act);
    }
  }

  lemma LinksStay(n: Net, act: Action)
    requires Enabled(n, act)
    ensures Apply(n, act).links.Keys == n.links.Keys
  {}

  lemma LinkStep(n: Net, act: Action, d: u32)
    requires Enabled(n, act) && d in Apply(n, act).links
    ensures d in n.links && LinkMoves(n.links[d], Apply(n, act).links[d])
  {
    match act {
      case Internal(c, side, a) =>
        assert d == c ==> LinkActs(n.links[d], Apply(n, act).links[d]);
        MovesBy(n.links[d], Apply(n, act).links[d], Apply(n, act).links[d]);
      case ServerProcesses(c, num, ch) => ServerLinkStep(n, c, num, ch, d);
      case ClientProcesses(c, num, ch) => ClientLinkStep(n, c, num, ch, d);
      case _ => MovesBy(n.links[d], n.links[d], Apply(n, act).links[d]);
    }
  }

  lemma Processing(l: Arq.Link, side: Arq.Side, num: u32)
    requires Arq.CanApply(l, side, Arq.Process(num))
    ensures AtMostOneAct(l, Arq.Apply(l, side, Arq.Process(num)))
  {}

  lemma ServerLinkStep(n: Net, c: u32, num: u32, ch: Choice, d: u32)
    requires Enabled(n, ServerProcesses(c, num, ch)) && d in ServerProcess(n, c, num, ch).links
    ensures d in n.links && LinkMoves(n.links[d], ServerProcess(n, c, num, ch).links[d])
  {
    Processing(n.links[c], Arq.B, num);
    var l := if d == c then Arq.Apply(n.links[c], Arq.B, Arq.Process(num)) else n.links[d];
    var l' := ServerProcess(n, c, num, ch).links[d];
    match Buffered(n.links[c].b, num)
    case None => MovesBy(n.links[d], l, l');
    case Some(m) =>
      var sends := Sends(n.server, c, m, ch);
      assert l' == if d in sends then QueueOn(l, Arq.B, sends[d]) else l;
      MovesBy(n.links[d], l, l');
  }

  lemma ClientLinkStep(n: Net, c: u32, num: u32, ch: Choice, d: u32)
    requires Enabled(n, ClientProcesses(c, num, ch)) && d in ClientProcess(n, c, num, ch).links
    ensures d in n.links && LinkMoves(n.links[d], ClientProcess(n, c, num, ch).links[d])
  {
    Processing(n.links[c], Arq.A, num);
    var l := if d == c then Arq.Apply(n.links[c], Arq.A, Arq.Process(num)) else n.links[d];
    var l' := ClientProcess(n, c, num, ch).links[d];
    match Buffered(n.links[c].a, num)
    case None => MovesBy(n.links[d], l, l');
    case Some(m) =>
      var sends := Sends(n.clients[c], n.serverId, m, ch);
      assert l' == if d == c && n.serverId in sends then QueueOn(l, Arq.A, sends[n.serverId]) else l;
      MovesBy(n.links[d], l, l');
  }

  lemma KeysStay(n: Net, act: Action)
    requires n.links.Keys == n.clients.Keys && Enabled(n, act)
    ensures Apply(n, act).links.Keys == Apply(n, act).clients.Keys
  {}

  ghost predicate Refines(n: Net) {
    LinksOk(n) && Consensus.Reachable(Abs(n))
  }

  lemma RefinesNext(n: Net, n': Net)
    requires Refines(n) && Next(n, n')
    ensures Refines(n')
  {
    var act :| Enabled(n, act) && n' == Apply(n, act);
    LinksHeard(n);
    Simulate(n, act);
    KeysStay(n, act);
    forall c | c in n'.links ensures Arq.Inv(n'.links[c]) {
      LinkStep(n, act, c);
      MovesKeep(n.links[c], n'.links[c]);
    }
    if Abs(n') != Abs(n) {
      Runs.ReachesOne(Consensus.Next, Abs(n), Abs(n'));
      Runs.ReachableMore(Consensus.Init, Consensus.Next, Abs(n), Abs(n'));
    }
  }

  lemma RefinesInit(n: Net)
    requires Init(n)
    ensures Refines(n)
  {
    forall c | c in n.links ensures Arq.Inv(n.links[c]) {
      Arq.InitInv(n.links[c]);
    }
    Runs.ReachesSelf(Consensus.Next, Abs(n));
  }

  /** Every state of the deployed system is a state of the protocol over abstract channels, so every theorem
      about those runs holds of it. */
  lemma DeploymentRefinesConsensus(n: Net)
    requires Reachable(n)
    ensures LinksOk(n) && Consensus.Reachable(Abs(n))
  {
    forall s | Init(s) ensures Refines(s) {
      RefinesInit(s);
    }
    forall s, t | Refines(s) && Next(s, t) ensures Refines(t) {
      RefinesNext(s, t);
    }
    Runs.InvariantHolds(Init, Next, Refines, n);
  }

  // ----- whole runs -----

  ghost predicate RunsAbove(s: Consensus.Sys, n: Net) {
    Refines(n) && Runs.Reaches(Consensus.Next, s, Abs(n))
  }

  lemma RunsAboveNext(s: Consensus.Sys, n: Net, n': Net)
    requires RunsAbove(s, n) && Next(n, n')
    ensures RunsAbove(s, n')
  {
    RefinesNext(n, n');
    var act :| Enabled(n, act) && n' == Apply(n, act);
    LinksHeard(n);
    Simulate(n, act);
    if Abs(n') != Abs(n) {
      Runs.ReachesMore(Consensus.Next, s, Abs(n), Abs(n'));
    }
  }

  /** Every run of the deployed system is, from above, a run of the protocol. */
  lemma DeployedRun(n: Net, n': Net)
    requires Reachable(n) && Runs.Reaches(Next, n, n')
    ensures Consensus.Reachable(Abs(n)) && Runs.Reaches(Consensus.Next, Abs(n), Abs(n'))
  {
    DeploymentRefinesConsensus(n);
    Runs.ReachesSelf(Consensus.Next, Abs(n));
    var above := x => RunsAbove(Abs(n), x);
    forall x, y | above(x) && Next(x, y) ensures above(y) {
      RunsAboveNext(Abs(n), x, y);
    }
    var k: nat :| Runs.ReachesIn(Next, n, n', k);
    Runs.InductiveAlong(Next, above, n, n', k);
  }
}
