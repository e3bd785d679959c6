/** What the history of handled messages decides: which clients are complete, and how often a VoteID has been set up. */
module Histories {
  import opened Bytes
  import opened Pip
  import opened Messages
  import opened Referendum
  import opened Consensus
  import opened Agreement
  import Runs

  predicate IsQuestion(m: Msg, v: VoteId) {
    m.AskQuestion? && m.voteId == v
  }

  predicate IsRequest(m: Msg, v: VoteId) {
    m.RequestVote? && m.voteId == v
  }

  ghost predicate Asked(log: seq<Msg>, v: VoteId) {
    exists i | 0 <= i < |log| :: IsQuestion(log[i], v)
  }

  /** A result for `v` comes somewhere after a question for `v`. */
  ghost predicate AskedThenTold(log: seq<Msg>, v: VoteId) {
    exists i, j | 0 <= i < j < |log| :: IsQuestion(log[i], v) && IsResult(log[j], v)
  }

  lemma AskedMore(log: seq<Msg>, m: Msg, v: VoteId)
    ensures Asked(log + [m], v) <==> Asked(log, v) || IsQuestion(m, v)
  {
    var more := log + [m];
    if Asked(log, v) {
      var i :| 0 <= i < |log| && IsQuestion(log[i], v);
      assert more[i] == log[i];
    }
    if IsQuestion(m, v) {
      assert more[|log|] == m;
    }
  }

  lemma ToldMore(log: seq<Msg>, m: Msg, v: VoteId)
    ensures AskedThenTold(log + [m], v) <==> AskedThenTold(log, v) || (Asked(log, v) && IsResult(m, v))
  {
    var more := log + [m];
    if AskedThenTold(log, v) {
      var i, j :| 0 <= i < j < |log| && IsQuestion(log[i], v) && IsResult(log[j], v);
      assert more[i] == log[i] && more[j] == log[j];
    }
    if Asked(log, v) && IsResult(m, v) {
      var i :| 0 <= i < |log| && IsQuestion(log[i], v);
      assert more[i] == log[i] && more[|log|] == m;
    }
    if AskedThenTold(more, v) {
      var i, j :| 0 <= i < j < |more| && IsQuestion(more[i], v) && IsResult(more[j], v);
      assert more[i] == log[i];
      assert j < |log| ==> more[j] == log[j];
    }
  }

  // ----- completion -----

  ghost predicate GuestsFollow(s: Sys) {
    && s.told.Keys == s.clients.Keys
    && (forall c, v | c in s.clients :: v in s.clients[c].guest <==> Asked(s.told[c], v))
    && (forall c, v | c in s.clients :: Complete(s, c, v) <==> AskedThenTold(s.told[c], v))
  }

  lemma GuestEffect(n: Node, from: u32, m: Msg, ch: Choice, v: VoteId)
    requires NodeOk(n) && FromServer(m)
    ensures var n' := Handle(n, from, m, ch);
      && (v in n'.guest <==> v in n.guest || IsQuestion(m, v))
      && (v in n'.guest && n'.guest[v].complete <==> v in n.guest && (n.guest[v].complete || IsResult(m, v)))
  {}

  lemma FollowClient(s: Sys, c: u32, m: Msg, ch: Choice)
    requires GuestsFollow(s) && c in s.clients && NodeOk(s.clients[c]) && FromServer(m)
    ensures GuestsFollow(ClientStep(s, c, m, ch))
  {
    var t := ClientStep(s, c, m, ch);
    forall d, v | d in t.clients
      ensures v in t.clients[d].guest <==> Asked(t.told[d], v)
      ensures Complete(t, d, v) <==> AskedThenTold(t.told[d], v)
    {
      assert Complete(s, d, v) <==> AskedThenTold(s.told[d], v);
      if d == c {
        GuestEffect(s.clients[c], s.serverId, m, ch, v);
        AskedMore(s.told[c], m, v);
        ToldMore(s.told[c], m, v);
      } else {
        assert t.clients[d] == s.clients[d] && t.told[d] == s.told[d];
      }
    }
  }

  lemma FollowStep(s: Sys, act: Action)
    requires Shape(s) && GuestsFollow(s) && Enabled(s, act)
    ensures GuestsFollow(Apply(s, act))
  {
    if act.ClientHandles? {
      FollowClient(s, act.c, act.m, act.ch);
    } else {
      var t := Apply(s, act);
      assert t.clients == s.clients && t.told == s.told;
      assert forall c, v :: Complete(t, c, v) <==> Complete(s, c, v);
    }
  }

  // ----- set-ups -----

  /** Where in what the server has handled the requests for `v` are: the client and the position. */
  function RequestsHeard(heard: map<u32, seq<Msg>>, v: VoteId): set<(u32, int)> {
    set c, i | c in heard && 0 <= i < |heard[c]| && IsRequest(heard[c][i], v) :: (c, i)
  }

  ghost predicate SetUpsFollow(s: Sys) {
    forall v :: Created(s, v) == |RequestsHeard(s.heard, v)|
  }

  lemma RequestsMore(heard: map<u32, seq<Msg>>, c: u32, m: Msg, v: VoteId)
    requires c in heard
    ensures |RequestsHeard(Handled(heard, c, m), v)| == |RequestsHeard(heard, v)| + (if IsRequest(m, v) then 1 else 0)
  {
    var k := |heard[c]|;
    assert (c, k) !in RequestsHeard(heard, v);
    assert RequestsHeard(Handled(heard, c, m), v)
        == RequestsHeard(heard, v) + (if IsRequest(m, v) then {(c, k)} else {});
  }

  lemma SetUpsStep(s: Sys, act: Action)
    requires Shape(s) && SetUpsFollow(s) && Enabled(s, act)
    ensures SetUpsFollow(Apply(s, act))
  {
    var t := Apply(s, act);
    forall v ensures Created(t, v) == |RequestsHeard(t.heard, v)| {
      assert Created(s, v) == |RequestsHeard(s.heard, v)|;
      if act.ServerHandles? {
        RequestsMore(s.heard, act.c, act.m, v);
      } else {
        assert t.heard == s.heard;
      }
    }
  }

  // ----- all runs -----

  ghost predicate Follows(s: Sys) {
    Reachable(s) && GuestsFollow(s) && SetUpsFollow(s)
  }

  lemma FollowsNext(s: Sys, t: Sys)
    requires Follows(s) && Next(s, t)
    ensures Follows(t)
  {
    Runs.ReachableNext(Init, Next, s, t);
    ReachableInv(s);
    var act :| Enabled(s, act) && t == Apply(s, act);
    FollowStep(s, act);
    SetUpsStep(s, act);
  }

  lemma FollowsInit(s: Sys)
    requires Init(s)
    ensures Follows(s)
  {
    Runs.ReachesSelf(Next, s);
    forall v ensures RequestsHeard(s.heard, v) == {} {}
  }

  lemma ReachableFollows(s: Sys)
    requires Reachable(s)
    ensures Follows(s)
  {
    forall x | Init(x) ensures Follows(x) {
      FollowsInit(x);
    }
    forall x, y | Follows(x) && Next(x, y) ensures Follows(y) {
      FollowsNext(x, y);
    }
    Runs.InvariantHolds(Init, Next, Follows, s);
  }

  /** In every run a client is complete if and only if it has handled a result after a question. */
  lemma CompleteExactly(s: Sys, c: u32, v: VoteId)
    requires Reachable(s) && c in s.clients
    ensures c in s.told && (Complete(s, c, v) <==> AskedThenTold(s.told[c], v))
  {
    ReachableFollows(s);
  }

  /** In every run a VoteID has been set up as often as the server has handled a request for it. */
  lemma SetUpsExactly(s: Sys, v: VoteId)
    requires Reachable(s)
    ensures Created(s, v) == |RequestsHeard(s.heard, v)|
  {
    ReachableFollows(s);
  }
}
