/** Where packet numbers run out: exactly how long the queues may get for every run of the protocol to be possible over
    the links, from every state they can be in. */
module Exhaustion {
  import opened Bytes
  import opened Packet
  import opened Wrappers
  import opened Pip
  import opened Messages
  import opened Referendum
  import opened SlidingWindow
  import opened Deployment
  import opened Realization
  import Arq
  import ArqTheorems
  import Consensus
  import Delivery
  import Processed
  import Runs

  ghost predicate AtMost(s: Consensus.Sys, k: nat) {
    (forall c | c in s.up :: |s.up[c]| <= k) && (forall c | c in s.down :: |s.down[c]| <= k)
  }

  /** From `n` the deployed system can get to a state that is `t` as seen from above. */
  ghost predicate CanFollow(n: Net, t: Consensus.Sys) {
    exists n' :: Runs.Reaches(Next, n, n') && Abs(n') == t
  }

  // ----- a window that has passed everything -----

  /** The window can be moved over everything that has been queued. */
  lemma {:induction false} PassAll(l: Arq.Link) returns (l': Arq.Link)
    requires Arq.Inv(l) && |l.a.queued| <= MOST_PACKETS
    ensures Delivery.Moves(l, l') && l'.a.sender.windowStart == |l.a.queued|
    decreases |l.a.queued| - l.a.sender.windowStart
  {
    if l.a.sender.windowStart == |l.a.queued| {
      Delivery.MoveSelf(l);
      l' := l;
    } else {
      var m := Delivery.Advance(l);
      l' := PassAll(m);
      Delivery.MoveOn(l, m, l');
    }
  }

  /** The window is stuck at its limit, and no packet from there on was ever sent. */
  ghost predicate Unsent(l: Arq.Link) {
    && Arq.Inv(l) && l.a.sender.windowStart == MOST_PACKETS
    && forall p | p in l.ab && p.header.kind == DATA :: p.header.packetNum < MOST_PACKETS
  }

  lemma UnsentWhenPassed(l: Arq.Link)
    requires Arq.Inv(l) && l.a.sender.windowStart == |l.a.queued| == MOST_PACKETS
    ensures Unsent(l)
  {
    forall p | p in l.ab && p.header.kind == DATA ensures p.header.packetNum < MOST_PACKETS {
      Delivery.SentOnce(l, p);
    }
  }

  lemma NothingEmitted(l: Arq.Link, act: Arq.Action, p: Pckt)
    requires Unsent(l) && Arq.Enabled(l.a, l.ba, act) && p in Arq.Emits(l.a, act)
    ensures p.header.kind != DATA
  {
    ArqTheorems.StuckAct(l.a, act);
    assert WindowUnacked(l.a.sender) == {};
    if act.ReceiveControl? {
      assert Arq.WireOk(l.b, act.p);
    }
  }

  lemma UnsentAct(l: Arq.Link, side: Arq.Side, act: Arq.Action)
    requires Unsent(l) && Arq.CanApply(l, side, act)
    ensures Unsent(Arq.Apply(l, side, act))
  {
    Arq.StepInv(l, side, act);
    if side == Arq.A {
      ArqTheorems.StuckAct(l.a, act);
      forall p | p in Arq.Emits(l.a, act) ensures p.header.kind != DATA {
        NothingEmitted(l, act, p);
      }
    }
  }

  lemma UnsentMoves(l: Arq.Link, l': Arq.Link)
    requires Unsent(l) && LinkMoves(l, l')
    ensures Unsent(l')
  {
    var m :| AtMostOneAct(l, m) && AtMostOneQueued(m, l');
    if m != l {
      var side, act: Arq.Action :| !act.Queue? && Arq.CanApply(l, side, act) && m == Arq.Apply(l, side, act);
      UnsentAct(l, side, act);
    }
    if l' != m {
      var side, x :| l' == QueueOn(m, side, x);
      UnsentAct(m, side, Arq.Queue(Encode(x)));
    }
  }

  ghost predicate ClientStuck(n: Net) {
    1 in n.links && Unsent(n.links[1])
  }

  lemma ClientStuckForever(n: Net, n': Net)
    requires ClientStuck(n) && Runs.Reaches(Next, n, n')
    ensures ClientStuck(n')
  {
    forall x, y | ClientStuck(x) && Next(x, y) ensures ClientStuck(y) {
      var act :| Enabled(x, act) && y == Apply(x, act);
      LinksStay(x, act);
      LinkStep(x, act, 1);
      UnsentMoves(x.links[1], y.links[1]);
    }
    var k: nat :| Runs.ReachesIn(Next, n, n', k);
    Runs.InductiveAlong(Next, ClientStuck, n, n', k);
  }

  // ----- the protocol is not stuck -----

  function Greetings(k: nat): (r: seq<Msg>) {
    seq(k, _ => Greet([]))
  }

  /** One client has queued `k` greetings and the server has handled none. */
  function Greeted(k: nat): Consensus.Sys {
    Consensus.Sys(0, Consensus.NewNode(), map[1 := Consensus.NewNode()], map[1 := Greetings(k)], map[1 := []],
                  map[], map[], map[], map[1 := []], map[1 := []])
  }

  lemma {:induction false} GreetedReachable(k: nat)
    ensures Consensus.Reachable(Greeted(k))
  {
    if k == 0 {
      assert Consensus.Init(Greeted(0));
      Runs.ReachesSelf(Consensus.Next, Greeted(0));
    } else {
      GreetedReachable(k - 1);
      var act := Consensus.ClientGreets(1, []);
      Consensus.Take(Greeted(k - 1), act);
      assert Fits(Greet([]));
      assert Greetings(k - 1) + [Greet([])] == Greetings(k);
      assert Consensus.Apply(Greeted(k - 1), act) == Greeted(k);
    }
  }

  /** After the greetings a request has been queued. */
  function Requesting(k: nat, v: VoteId): Consensus.Sys {
    Greeted(k).(up := map[1 := Greetings(k) + [RequestVote(v, [])]])
  }

  /** The server has handled it at once. */
  function Asked(k: nat, v: VoteId): Consensus.Sys {
    Requesting(k, v).(server := Requested(Consensus.NewNode(), v, [], map[]),
                      heard := map[1 := [RequestVote(v, [])]], created := map[v := 1], snapshots := map[v := map[]])
  }

  lemma AskedFollows(k: nat, v: VoteId)
    ensures Runs.Reaches(Consensus.Next, Greeted(k), Asked(k, v))
  {
    RequestQueued(k, v);
    RequestHandled(k, v);
    Runs.ReachesOne(Consensus.Next, Greeted(k), Requesting(k, v));
    Runs.ReachesMore(Consensus.Next, Greeted(k), Requesting(k, v), Asked(k, v));
  }

  lemma RequestQueued(k: nat, v: VoteId)
    ensures Consensus.Next(Greeted(k), Requesting(k, v))
  {
    var s, queue := Greeted(k), Consensus.ClientRequests(1, v, []);
    WhatFits(v, [], 0);
    assert Consensus.PushTo(s.up, 1, RequestVote(v, [])) == map[1 := Greetings(k) + [RequestVote(v, [])]];
    assert Consensus.Enabled(s, queue);
  }

  lemma RequestHandled(k: nat, v: VoteId)
    ensures Consensus.Next(Requesting(k, v), Asked(k, v))
  {
    var s, m, ch := Requesting(k, v), RequestVote(v, []), Choice(map[], 0, 0, []);
    assert EligiblePeers(ch.known) == {};
    assert Sends(s.server, 1, m, ch).Keys == {};
    assert Consensus.PushAll(s.down, Sends(s.server, 1, m, ch)) == s.down;
    assert s.heard[1] + [m] == [m];
    assert Consensus.ServerStep(s, 1, m, ch) == Asked(k, v);
    RequestEnabled(k, v);
  }

  lemma RequestEnabled(k: nat, v: VoteId)
    ensures Consensus.Enabled(Requesting(k, v),
              Consensus.ServerHandles(1, RequestVote(v, []), Choice(map[], 0, 0, [])))
  {
    assert Requesting(k, v).up[1][k] == RequestVote(v, []);
  }

  // ----- the limit -----

  /** The links carry all greetings, and the client's window has passed them. */
  lemma StuckNet() returns (n: Net)
    ensures Reachable(n) && Abs(n) == Greeted(MOST_PACKETS) && ClientStuck(n)
  {
    GreetedReachable(MOST_PACKETS);
    var n0 := DeploymentRealizesConsensus(Greeted(MOST_PACKETS));
    assert Abs(n0).up.Keys == n0.links.Keys;
    LinkInv(n0, 1);
    Processed.QueueLengths(n0, 1);
    var l := PassAll(n0.links[1]);
    Lift(n0, 1, l);
    n := WithLink(n0, 1, l);
    Runs.ReachableMore(Init, Next, n0, n);
    UnsentWhenPassed(l);
  }

  /** A request behind all greetings would have been sent under the number at which the window is stuck. */
  lemma NeverHeard(n: Net, v: VoteId)
    requires Reachable(n) && ClientStuck(n)
    ensures Abs(n) != Asked(MOST_PACKETS, v)
  {
    if Abs(n) == Asked(MOST_PACKETS, v) {
      Processed.QueueLengths(n, 1);
      Processed.HeardAt(n, 1, 0);
      Processed.HeardAtNumber(n, 1, 0);
      Processed.LinkOk(n, 1);
      NotProcessed(n.links[1], v);
    }
  }

  lemma NotProcessed(l: Arq.Link, v: VoteId)
    requires Unsent(l) && Processed.LinkDecodes(l) && |l.b.processed| > 0
    requires Log(l.a.queued) == Greetings(MOST_PACKETS) + [RequestVote(v, [])]
    requires var p := l.b.processed[0]; p.header.packetNum < |l.a.queued| && p.body == l.a.queued[p.header.packetNum]
    ensures Processed.Held(l.b.processed[0]) != Some(RequestVote(v, []))
  {
    var p := l.b.processed[0];
    Processed.LogAligned(l.a.queued, p.header.packetNum);
    assert p in l.b.processed;
    assert p in l.ab && p.header.kind == DATA;
  }

  /** Exactly as long as no queue gets longer than 2^32 - 5 can every run of the protocol be followed over the links,
      from every state they can be in. */
  lemma RunsExactly(k: nat)
    ensures (forall n, t | Reachable(n) && AtMost(t, k) && Runs.Reaches(Consensus.Next, Abs(n), t) :: CanFollow(n, t))
       <==> k <= MOST_PACKETS
  {
    if k <= MOST_PACKETS {
      forall n, t | Reachable(n) && AtMost(t, k) && Runs.Reaches(Consensus.Next, Abs(n), t) ensures CanFollow(n, t) {
        assert Short(t);
        var n' := RealizeRun(n, t);
      }
    } else {
      var v: VoteId := seq(16, _ => 0);
      var n := StuckNet();
      AskedFollows(MOST_PACKETS, v);
      assert AtMost(Asked(MOST_PACKETS, v), k);
      forall n' | Runs.Reaches(Next, n, n') ensures Abs(n') != Asked(MOST_PACKETS, v) {
        Runs.ReachableMore(Init, Next, n, n');
        ClientStuckForever(n, n');
        NeverHeard(n', v);
      }
      assert !CanFollow(n, Asked(MOST_PACKETS, v));
    }
  }
}
