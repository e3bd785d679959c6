/** Referendums on the host and on the voters (udp/vote_manager.go). */
module Referendum {
  import opened Bytes
  import opened Wrappers
  import opened Pip
  import opened Messages

  // Responses
  const UNSAT: u16 := 0
  const SAT: u16 := 1
  const SYNTAX_ERROR: u16 := 2

  const SIMPLE_EVAL: u16 := 1

  datatype HostRef = HostRef(
    question: bytes, ongoing: bool, participants: set<u32>, who: set<u32>, votes: map<u16, nat>, result: u16)

  datatype ClientRef = ClientRef(question: bytes, result: u16, complete: bool)

  /** What one node's referendum manager holds. */
  datatype Node = Node(host: map<VoteId, HostRef>, guest: map<VoteId, ClientRef>)

  /** What `copyConversationsMap` looks at in a conversation. */
  datatype Peer = Peer(features: seq<u16>, online: bool)

  predicate Eligible(p: Peer) {
    SIMPLE_EVAL in p.features && p.online
  }

  function EligiblePeers(conversations: map<u32, Peer>): set<u32> {
    set c | c in conversations && Eligible(conversations[c])
  }

  // ----- the host's side -----

  function NewHost(question: bytes, participants: set<u32>): HostRef {
    HostRef(question, true, participants, {}, map[], SYNTAX_ERROR)
  }

  /** Only participants vote, so the subtraction never goes below zero. */
  predicate WhoOk(h: HostRef) {
    h.who <= h.participants
  }

  function Missing(h: HostRef): (m: nat)
    requires WhoOk(h)
  {
    Remaining(h.who, h.participants);
    |h.participants| - |h.who|
  }

  lemma Remaining(who: set<u32>, participants: set<u32>)
    requires who <= participants
    ensures |who| <= |participants|
    ensures |who| == |participants| ==> who == participants
  {
    assert |participants - who| + |who| == |participants|;
    if who != participants {
      var c :| c in participants - who;
    }
  }

  function Count(h: HostRef, r: u16): nat {
    if r in h.votes then h.votes[r] else 0
  }

  /** The early-call test: more votes than are still missing. */
  predicate Callable(h: HostRef, r: u16)
    requires WhoOk(h)
  {
    r in h.votes && h.votes[r] > Missing(h)
  }

  predicate AnyCallable(h: HostRef)
    requires WhoOk(h)
  {
    exists r | r in h.votes :: Callable(h, r)
  }

  /** A vote counts when the referendum is open and the voter is a participant who has not voted yet. */
  predicate Admits(h: HostRef, c: u32) {
    h.ongoing && c in h.participants && c !in h.who
  }

  function Record(h: HostRef, c: u32, r: u16): HostRef {
    h.(who := h.who + {c}, votes := h.votes[r := Count(h, r) + 1])
  }

  /** The options that may be announced when `c` answers `r`; none when the referendum stays open. */
  predicate MayAnnounce(h: HostRef, c: u32, r: u16, winner: u16)
    requires WhoOk(h)
  {
    Admits(h, c) && Callable(Record(h, c, r), winner)
  }

  predicate Closes(h: HostRef, c: u32, r: u16)
    requires WhoOk(h)
  {
    Admits(h, c) && AnyCallable(Record(h, c, r))
  }

  /** The referendum after an answer; `winner` is the callable option that happened to be iterated last. */
  function Respond(h: HostRef, c: u32, r: u16, winner: u16): HostRef
    requires WhoOk(h)
  {
    if !Admits(h, c) then h
    else if Closes(h, c, r) then Record(h, c, r).(ongoing := false, result := winner)
    else Record(h, c, r)
  }

  /** `computeQuestion` from the point where the expression library has answered: None is an error, and a defecting
      node turns its answer around. */
  method ComputeQuestion(evaluation: Option<bool>, defects: bool) returns (response: u16)
    ensures evaluation.None? ==> response == 2
    ensures evaluation.Some? ==> response == if evaluation.value != defects then 1 else 0
  {
    if evaluation.None? {
      return SYNTAX_ERROR;
    }
    response := if evaluation.value then SAT else UNSAT;
    if defects {
      if response == SAT {
        response := UNSAT;
      } else if response == UNSAT {
        response := SAT;
      }
    }
  }

  /** Queues `m` for every participant, in arbitrary order. */
  method Broadcast(participants: set<u32>, m: Msg) returns (sends: map<u32, Msg>)
    ensures sends == map c | c in participants :: m
  {
    sends := map[];
    var rest := participants;
    while rest != {}
      invariant rest <= participants
      invariant sends == map c | c in participants - rest :: m
      decreases rest
    {
      var p :| p in rest;
      sends := sends[p := m];
      rest := rest - {p};
    }
  }

  class HostReferendum {
    const voteId: VoteId
    const question: bytes
    var ongoing: bool
    var participants: set<u32>
    var who: set<u32>
    var votes: map<u16, nat>
    var result: u16

    function State(): HostRef
      reads this
    {
      HostRef(question, ongoing, participants, who, votes, result)
    }

    constructor (voteId: VoteId, question: bytes)
      ensures State() == NewHost(question, {}) && this.voteId == voteId
      ensures this.question == question && ongoing && participants == {} && who == {} && votes == map[] && result == 2
    {
      this.voteId := voteId;
      this.question := question;
      ongoing := true;
      participants := {};
      who := {};
      votes := map[];
      result := SYNTAX_ERROR;
    }

    /** Snapshot of the eligible conversations, searched in arbitrary order. */
    method CopyConversationsMap(conversations: map<u32, Peer>)
      modifies this`participants
      ensures participants == old(participants) + EligiblePeers(conversations)
      ensures forall c :: c in participants <==>
                || c in old(participants)
                || (c in conversations && conversations[c].online && 1 in conversations[c].features)
    {
      var todo := conversations.Keys;
      while todo != {}
        invariant todo <= conversations.Keys
        invariant participants == old(participants) + (EligiblePeers(conversations) - todo)
        decreases todo
      {
        var key :| key in todo;
        var features := conversations[key].features;
        var foundFeature := false;
        var i := 0;
        while i < |features|
          invariant i <= |features| && !foundFeature && SIMPLE_EVAL !in features[..i]
        {
          if features[i] == SIMPLE_EVAL {
            foundFeature := true;
            break;
          }
          i := i + 1;
        }
        assert foundFeature <==> SIMPLE_EVAL in features;
        if foundFeature && conversations[key].online {
          participants := participants + {key};
        }
        todo := todo - {key};
      }
    }

    /** Checks every option in arbitrary order; the last one that qualifies is announced. */
    method BroadcastResult() returns (sends: map<u32, Msg>)
      requires WhoOk(State())
      modifies this`ongoing, this`result
      ensures AnyCallable(old(State())) ==>
                && Callable(old(State()), result)
                && State() == old(State()).(ongoing := false, result := result)
                && sends == map c | c in participants :: AnnounceResult(voteId, result)
      ensures !AnyCallable(old(State())) ==> State() == old(State()) && sends == map[]
    {
      assert WhoOk(old(State())) && |who| <= |participants| by {
        Remaining(who, participants);
      }
      var missingVotes := |participants| - |who|;
      var winners: set<u16> := {};
      var todo := votes.Keys;
      while todo != {}
        invariant todo <= votes.Keys && ongoing == old(ongoing)
        invariant forall r :: r in winners <==> r in votes && r !in todo && votes[r] > missingVotes
        invariant if winners == {} then result == old(result) else result in winners
        decreases todo
      {
        var r :| r in todo;
        if votes[r] > missingVotes {
          winners := winners + {r};
          result := r;
        }
        todo := todo - {r};
      }
      sends := map[];
      assert forall r | r in votes :: r in winners <==> Callable(old(State()), r);
      if |winners| > 0 {
        assert Callable(old(State()), result);
        sends := Broadcast(participants, AnnounceResult(voteId, result));
        ongoing := false;
      }
    }

    /** A voter's answer; `responder` is None for a nil conversation. */
    method HandleResponse(responder: Option<u32>, response: u16) returns (sends: map<u32, Msg>)
      requires WhoOk(State())
      modifies this
      ensures WhoOk(State())
      ensures responder.None? ==> State() == old(State()) && sends == map[]
      ensures responder.Some? ==>
                && State() == Respond(old(State()), responder.value, response, result)
                && (Closes(old(State()), responder.value, response) ==>
                      MayAnnounce(old(State()), responder.value, response, result))
                && sends == if Closes(old(State()), responder.value, response)
                            then map c | c in participants :: AnnounceResult(voteId, result) else map[]
    {
      sends := map[];
      if !ongoing || responder.None? {
        return;
      }
      if responder.value !in participants || responder.value in who {
        return;
      }
      who := who + {responder.value};
      if response in votes {
        votes := votes[response := votes[response] + 1];
      } else {
        votes := votes[response := 1];
      }
      assert State() == Record(old(State()), responder.value, response);
      sends := BroadcastResult();
    }
  }

  // ----- a whole node -----

  /** What the environment chooses when a message is handled: the conversations known at that moment, the value
      computed for a question, the option iterated last, and this node's own features. */
  datatype Choice = Choice(known: map<u32, Peer>, computed: u16, winner: u16, features: seq<u16>)

  predicate NodeOk(n: Node) {
    forall v | v in n.host :: WhoOk(n.host[v])
  }

  /** The choice is one the code can make. */
  predicate Allowed(n: Node, from: u32, m: Msg, ch: Choice)
    requires NodeOk(n)
  {
    if m.CastVote? && m.voteId in n.host && Closes(n.host[m.voteId], from, m.response) then
      MayAnnounce(n.host[m.voteId], from, m.response, ch.winner)
    else true
  }

  // The four vote handlers.

  function Requested(n: Node, v: VoteId, question: bytes, known: map<u32, Peer>): Node {
    n.(host := n.host[v := NewHost(question, EligiblePeers(known))])
  }

  function Asked(n: Node, v: VoteId, question: bytes, computed: u16): Node {
    if v in n.guest then n else n.(guest := n.guest[v := ClientRef(question, computed, false)])
  }

  function Voted(n: Node, from: u32, v: VoteId, r: u16, winner: u16): Node
    requires NodeOk(n)
  {
    if v in n.host then n.(host := n.host[v := Respond(n.host[v], from, r, winner)]) else n
  }

  function Announced(n: Node, v: VoteId, r: u16): Node {
    if v in n.guest && !n.guest[v].complete then n.(guest := n.guest[v := n.guest[v].(result := r, complete := true)])
    else n
  }

  /** The result packets queued when a vote closes the referendum. */
  function Results(n: Node, from: u32, v: VoteId, r: u16, winner: u16): map<u32, Msg>
    requires NodeOk(n)
  {
    if v in n.host && Closes(n.host[v], from, r) then map c | c in n.host[v].participants :: AnnounceResult(v, winner)
    else map[]
  }

  /** The node after the handler that `incomingProcessor` runs for `m` from conversation `from`. */
  function Handle(n: Node, from: u32, m: Msg, ch: Choice): Node
    requires NodeOk(n)
  {
    match m
    case Greet(_) => n
    case GreetBack(_) => n
    case RequestVote(v, q) => Requested(n, v, q, ch.known)
    case AskQuestion(v, q) => Asked(n, v, q, ch.computed)
    case CastVote(v, r) => Voted(n, from, v, r, ch.winner)
    case AnnounceResult(v, r) => Announced(n, v, r)
  }

  /** What that handler queues, at most one message per conversation. */
  function Sends(n: Node, from: u32, m: Msg, ch: Choice): map<u32, Msg>
    requires NodeOk(n)
  {
    match m
    case Greet(_) => map[from := GreetBack(ch.features)]
    case GreetBack(_) => map[]
    case RequestVote(v, q) => map c | c in EligiblePeers(ch.known) :: AskQuestion(v, q)
    case AskQuestion(v, q) => if v in n.guest then map[] else map[from := CastVote(v, ch.computed)]
    case CastVote(v, r) => Results(n, from, v, r, ch.winner)
    case AnnounceResult(_, _) => map[]
  }

  // Every handler keeps a node in order.

  lemma RequestedOk(n: Node, v: VoteId, question: bytes, known: map<u32, Peer>)
    requires NodeOk(n)
    ensures NodeOk(Requested(n, v, question, known))
  {}

  lemma VotedOk(n: Node, from: u32, v: VoteId, r: u16, winner: u16)
    requires NodeOk(n)
    ensures NodeOk(Voted(n, from, v, r, winner))
  {}

  class ClientReferendum {
    const voteId: VoteId
    const question: bytes
    var result: u16
    var complete: bool

    function State(): ClientRef
      reads this
    {
      ClientRef(question, result, complete)
    }

    constructor (voteId: VoteId, question: bytes)
      ensures this.voteId == voteId && this.question == question && !complete
    {
      this.voteId := voteId;
      this.question := question;
      complete := false;
    }
  }

  ghost predicate AsksThoseOnline(sends: map<u32, Msg>, known: map<u32, Peer>) {
    forall c :: c in sends <==> c in known && known[c].online && 1 in known[c].features
  }

  lemma AsksEligible(sends: map<u32, Msg>, known: map<u32, Peer>)
    requires sends.Keys == EligiblePeers(known)
    ensures AsksThoseOnline(sends, known)
  {}

  class ReferendumManager {
    var hReferendums: map<VoteId, HostReferendum>
    var cReferendums: map<VoteId, ClientReferendum>

    function Hosts(): map<VoteId, HostRef>
      reads this, hReferendums.Values
    {
      map v | v in hReferendums :: hReferendums[v].State()
    }

    function Guests(): map<VoteId, ClientRef>
      reads this, cReferendums.Values
    {
      map v | v in cReferendums :: cReferendums[v].State()
    }

    function State(): Node
      reads this, hReferendums.Values, cReferendums.Values
    {
      Node(Hosts(), Guests())
    }

    ghost predicate Valid()
      reads this, hReferendums.Values, cReferendums.Values
    {
      && (forall v | v in hReferendums :: hReferendums[v].voteId == v)
      && (forall v | v in cReferendums :: cReferendums[v].voteId == v)
      && NodeOk(State())
    }

    constructor ()
      ensures Valid() && State() == Node(map[], map[])
    {
      hReferendums := map[];
      cReferendums := map[];
    }

    /** A new referendum with its participants filled in. */
    static method NewHostReferendum(v: VoteId, question: bytes, known: map<u32, Peer>) returns (h: HostReferendum)
      ensures fresh(h) && h.voteId == v && h.State() == NewHost(question, EligiblePeers(known))
    {
      h := new HostReferendum(v, question);
      h.CopyConversationsMap(known);
    }

    /** An existing referendum with the same ID is replaced, not kept. */
    method CreateReferendumFromClientRequest(v: VoteId, question: bytes, known: map<u32, Peer>)
      returns (sends: map<u32, Msg>)
      requires Valid()
      modifies this
      ensures Valid()
      ensures State() == Requested(old(State()), v, question, known)
      ensures sends == map c | c in EligiblePeers(known) :: AskQuestion(v, question)
      ensures AsksThoseOnline(sends, known)
      ensures fresh(hReferendums.Values - old(hReferendums.Values)) && cReferendums == old(cReferendums)
    {
      sends := Host(v, question, known);
      AsksEligible(sends, known);
      RequestedOk(old(State()), v, question, known);
    }

    /** The new referendum takes its place in the map, and its participants are asked. */
    method Host(v: VoteId, question: bytes, known: map<u32, Peer>) returns (sends: map<u32, Msg>)
      modifies this`hReferendums
      ensures v in hReferendums && fresh(hReferendums[v]) && hReferendums == old(hReferendums)[v := hReferendums[v]]
      ensures hReferendums[v].voteId == v
      ensures State() == Requested(old(State()), v, question, known)
      ensures sends == map c | c in EligiblePeers(known) :: AskQuestion(v, question)
    {
      var h := NewHostReferendum(v, question, known);
      hReferendums := hReferendums[v := h];
      sends := Broadcast(h.participants, AskQuestion(v, question));
      assert Guests() == old(Guests());
      assert Hosts() == old(Hosts())[v := h.State()];
    }

    method HandleNewQuestionFromServer(asker: u32, v: VoteId, question: bytes, computed: u16)
      returns (sends: map<u32, Msg>)
      requires Valid()
      modifies this
      ensures Valid()
      ensures State() == Asked(old(State()), v, question, computed)
      ensures sends == if v in old(State()).guest then map[] else map[asker := CastVote(v, computed)]
      ensures fresh(cReferendums.Values - old(cReferendums.Values)) && hReferendums == old(hReferendums)
    {
      if v in cReferendums {
        return map[];
      }
      var c := new ClientReferendum(v, question);
      c.result := computed;
      cReferendums := cReferendums[v := c];
      sends := map[asker := CastVote(v, c.result)];
      assert State() == Asked(old(State()), v, question, computed) by {
        assert Hosts() == old(Hosts());
        assert Guests() == old(Guests())[v := c.State()];
      }
    }

    /** `winner` reports which option was iterated last. */
    method HandleResponseFromClient(from: u32, v: VoteId, r: u16) returns (sends: map<u32, Msg>, winner: u16)
      requires Valid()
      modifies hReferendums.Values
      ensures Valid()
      ensures State() == Voted(old(State()), from, v, r, winner)
      ensures sends == Results(old(State()), from, v, r, winner)
      ensures v in old(State()).host && Closes(old(State()).host[v], from, r) ==>
                MayAnnounce(old(State()).host[v], from, r, winner)
    {
      if v !in hReferendums {
        return map[], 0;
      }
      assert old(Hosts())[v] == hReferendums[v].State();
      sends := hReferendums[v].HandleResponse(Some(from), r);
      winner := hReferendums[v].result;
      assert State() == Voted(old(State()), from, v, r, winner) by {
        assert Guests() == old(Guests());
        assert Hosts() == old(Hosts())[v := hReferendums[v].State()];
      }
      VotedOk(old(State()), from, v, r, winner);
    }

    method HandleResultFromServer(v: VoteId, r: u16)
      requires Valid()
      modifies cReferendums.Values
      ensures Valid()
      ensures State() == Announced(old(State()), v, r)
    {
      if v !in cReferendums {
        return;
      }
      if cReferendums[v].complete {
        return;
      }
      if cReferendums[v].result != r {
        cReferendums[v].result := r;
      }
      cReferendums[v].complete := true;
      assert State() == Announced(old(State()), v, r) by {
        assert Hosts() == old(Hosts());
        assert Guests() == old(Guests())[v := cReferendums[v].State()];
      }
    }

    /** The dispatch of `incomingProcessor`; `done` is `ch` with the option that was iterated last. */
    method Dispatch(from: u32, m: Msg, ch: Choice) returns (sends: map<u32, Msg>, done: Choice)
      requires Valid()
      modifies this, hReferendums.Values, cReferendums.Values
      ensures Valid()
      ensures done == ch.(winner := done.winner) && Allowed(old(State()), from, m, done)
      ensures State() == Handle(old(State()), from, m, done)
      ensures sends == Sends(old(State()), from, m, done)
      ensures m.Greet? ==> sends == map[from := GreetBack(ch.features)] && State() == old(State())
      ensures m.GreetBack? ==> sends == map[] && State() == old(State())
    {
      sends, done := map[], ch;
      match m {
        case Greet(_) => sends := map[from := GreetBack(ch.features)];
        case GreetBack(_) =>
        case RequestVote(v, q) => sends := CreateReferendumFromClientRequest(v, q, ch.known);
        case AskQuestion(v, q) => sends := HandleNewQuestionFromServer(from, v, q, ch.computed);
        case CastVote(v, r) =>
          var winner;
          sends, winner := HandleResponseFromClient(from, v, r);
          done := ch.(winner := winner);
        case AnnounceResult(v, r) => HandleResultFromServer(v, r);
      }
    }
  }
}
