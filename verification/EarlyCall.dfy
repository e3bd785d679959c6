/** What the early-call test guarantees, and what it does not (broadcast_result_to_clients, README.md). */
module EarlyCall {
  import opened Bytes
  import opened Referendum
  import opened Wrappers

  // ----- sums of votes -----

  ghost function Sum(m: map<u16, nat>): nat {
    if m == map[] then 0 else
      var r :| r in m;
      m[r] + Sum(m - {r})
  }

  lemma {:induction false} SumWithout(m: map<u16, nat>, r: u16)
    requires r in m
    ensures Sum(m) == m[r] + Sum(m - {r})
    decreases m.Keys
  {
    var k :| k in m && Sum(m) == m[k] + Sum(m - {k});
    if k != r {
      SumWithout(m - {k}, r);
      SumWithout(m - {r}, k);
      assert m - {k} - {r} == m - {r} - {k};
    }
  }

  lemma SumOneMore(m: map<u16, nat>, r: u16)
    ensures Sum(m[r := (if r in m then m[r] else 0) + 1]) == Sum(m) + 1
  {
    var m' := m[r := (if r in m then m[r] else 0) + 1];
    SumWithout(m', r);
    assert m' - {r} == m - {r};
    if r in m {
      SumWithout(m, r);
    } else {
      assert m - {r} == m;
    }
  }

  lemma {:induction false} SumAtMost(m: map<u16, nat>, top: nat)
    requires forall r | r in m :: m[r] <= top
    ensures Sum(m) <= |m| * top
    decreases |m|
  {
    if m != map[] {
      var r :| r in m;
      SumWithout(m, r);
      assert |m - {r}| == |m| - 1 by {
        assert (m - {r}).Keys == m.Keys - {r};
      }
      SumAtMost(m - {r}, top);
      OneMore(|m|, top);
    }
  }

  lemma OneMore(k: int, x: int)
    ensures k * x == (k - 1) * x + x
  {}

  lemma Distribute(k: int, a: int, b: int)
    ensures k * (a - b) == k * a - k * b && (k + 1) * b == k * b + b
  {}

  lemma SumAtLeast(m: map<u16, nat>, r: u16)
    ensures (if r in m then m[r] else 0) <= Sum(m)
  {}

  // ----- what holds of a referendum through any stream of answers -----

  ghost predicate RefOk(h: HostRef) {
    && WhoOk(h)
    && Sum(h.votes) == |h.who|
    && (forall r | r in h.votes :: h.votes[r] > 0)
    && (h.ongoing ==> forall r | r in h.votes :: h.votes[r] <= Missing(h))
    && (!h.ongoing ==> Callable(h, h.result))
  }

  lemma NewRefOk(question: bytes, participants: set<u32>)
    ensures RefOk(NewHost(question, participants))
  {}

  lemma RecordKeeps(h: HostRef, c: u32, r: u16)
    requires RefOk(h) && Admits(h, c)
    ensures WhoOk(Record(h, c, r)) && Missing(Record(h, c, r)) == Missing(h) - 1
    ensures Sum(Record(h, c, r).votes) == |Record(h, c, r).who| == |h.who| + 1
  {
    SumOneMore(h.votes, r);
  }

  lemma RespondKeeps(h: HostRef, c: u32, r: u16, winner: u16)
    requires RefOk(h) && (Closes(h, c, r) ==> MayAnnounce(h, c, r, winner))
    ensures RefOk(Respond(h, c, r, winner))
  {
    if Admits(h, c) {
      RecordKeeps(h, c, r);
      var h1 := Record(h, c, r);
      if !Closes(h, c, r) {
        forall s | s in h1.votes ensures h1.votes[s] <= Missing(h1) {
          assert !Callable(h1, s);
        }
      }
    }
  }

  /** The referendum after a stream of answers in any order, repeated, late or from outsiders. It closes at most
      once, so one `winner` stands for the option iterated last at that moment. */
  function AnswerAll(h: HostRef, answers: seq<(u32, u16)>, winner: u16): HostRef
    requires WhoOk(h)
    decreases |answers|
  {
    if answers == [] then h else AnswerAll(Respond(h, answers[0].0, answers[0].1, winner), answers[1..], winner)
  }

  ghost predicate AnswersAllowed(h: HostRef, answers: seq<(u32, u16)>, winner: u16)
    requires WhoOk(h)
    decreases |answers|
  {
    if answers == [] then true
    else
      && (Closes(h, answers[0].0, answers[0].1) ==> MayAnnounce(h, answers[0].0, answers[0].1, winner))
      && AnswersAllowed(Respond(h, answers[0].0, answers[0].1, winner), answers[1..], winner)
  }

  /** Through any stream of answers the invariant holds, nobody's vote is withdrawn, and a closed referendum is
      frozen. */
  lemma {:induction false} AnswersKeep(h: HostRef, answers: seq<(u32, u16)>, winner: u16)
    requires RefOk(h) && AnswersAllowed(h, answers, winner)
    ensures var h' := AnswerAll(h, answers, winner);
      && RefOk(h') && h'.participants == h.participants && h.who <= h'.who && (!h.ongoing ==> h' == h)
    decreases |answers|
  {
    if answers != [] {
      RespondKeeps(h, answers[0].0, answers[0].1, winner);
      AnswersKeep(Respond(h, answers[0].0, answers[0].1, winner), answers[1..], winner);
    }
  }

  /** The first answer `c` gives. */
  function FirstAnswer(answers: seq<(u32, u16)>, c: u32): Option<u16>
    decreases |answers|
  {
    if answers == [] then None
    else if answers[0].0 == c then Some(answers[0].1)
    else FirstAnswer(answers[1..], c)
  }

  /** Participants still to vote whose first answer is `r`. */
  function FirstVoters(h: HostRef, answers: seq<(u32, u16)>, r: u16): set<u32> {
    set c | c in h.participants - h.who && FirstAnswer(answers, c) == Some(r)
  }

  /** All participants who answer at all. */
  function Answering(h: HostRef, answers: seq<(u32, u16)>): set<u32> {
    set c | c in h.participants && FirstAnswer(answers, c).Some?
  }

  lemma AdmittedFirst(h: HostRef, h1: HostRef, answers: seq<(u32, u16)>, r: u16)
    requires answers != [] && Admits(h, answers[0].0)
    requires h1.participants == h.participants && h1.who == h.who + {answers[0].0}
    ensures |FirstVoters(h, answers, r)| == |FirstVoters(h1, answers[1..], r)| + (if answers[0].1 == r then 1 else 0)
    ensures h.who + Answering(h, answers) == h1.who + Answering(h1, answers[1..])
  {
    var c := answers[0].0;
    assert c !in FirstVoters(h1, answers[1..], r);
    assert FirstVoters(h, answers, r) == FirstVoters(h1, answers[1..], r) + (if answers[0].1 == r then {c} else {});
  }

  lemma IgnoredFirst(h: HostRef, answers: seq<(u32, u16)>, r: u16)
    requires answers != [] && h.ongoing && !Admits(h, answers[0].0)
    ensures FirstVoters(h, answers, r) == FirstVoters(h, answers[1..], r)
    ensures h.who + Answering(h, answers) == h.who + Answering(h, answers[1..])
  {}

  /** As long as it stays open, a referendum counts each participant's first answer and nothing else, whatever
      the order and however many repetitions and outsiders the stream has. */
  lemma {:induction false} FirstAnswersCount(h: HostRef, answers: seq<(u32, u16)>, winner: u16, r: u16)
    requires RefOk(h) && AnswersAllowed(h, answers, winner) && AnswerAll(h, answers, winner).ongoing
    ensures Count(AnswerAll(h, answers, winner), r) == Count(h, r) + |FirstVoters(h, answers, r)|
    ensures AnswerAll(h, answers, winner).who == h.who + Answering(h, answers)
    decreases |answers|
  {
    if answers == [] {
      assert FirstVoters(h, answers, r) == {} == Answering(h, answers);
    } else {
      var c, a := answers[0].0, answers[0].1;
      var h1 := Respond(h, c, a, winner);
      RespondKeeps(h, c, a, winner);
      AnswersKeep(h1, answers[1..], winner);
      FirstAnswersCount(h1, answers[1..], winner, r);
      if Admits(h, c) {
        assert h1 == Record(h, c, a);
        AdmittedFirst(h, h1, answers, r);
      } else {
        IgnoredFirst(h, answers, r);
      }
    }
  }

  /** So a referendum with participants is closed at the latest when all of them have answered once. */
  lemma EveryoneAnswered(question: bytes, participants: set<u32>, answers: seq<(u32, u16)>, winner: u16)
    requires participants != {} && forall c | c in participants :: FirstAnswer(answers, c).Some?
    requires AnswersAllowed(NewHost(question, participants), answers, winner)
    ensures !AnswerAll(NewHost(question, participants), answers, winner).ongoing
  {
    var h := NewHost(question, participants);
    NewRefOk(question, participants);
    AnswersKeep(h, answers, winner);
    if AnswerAll(h, answers, winner).ongoing {
      FirstAnswersCount(h, answers, winner, 0);
      OpenBound(AnswerAll(h, answers, winner));
    }
  }

  // ----- the arithmetic of the early call -----

  /** While a referendum is open no option is ahead of what is missing, so with k different answers
      at most k / (k + 1) of the participants have voted. */
  lemma OpenBound(h: HostRef)
    requires RefOk(h) && h.ongoing
    ensures forall r | r in h.votes :: h.votes[r] <= Missing(h)
    ensures (|h.votes| + 1) * |h.who| <= |h.votes| * |h.participants|
    ensures h.participants != {} ==> h.who != h.participants
  {
    SumAtMost(h.votes, Missing(h));
    Distribute(|h.votes|, |h.participants|, |h.who|);
    assert h.who == h.participants ==> |h.votes| * Missing(h) == 0;
  }

  /** At closing more than half have voted, and the announced option has at least 1 / (k + 1) of the participants. */
  lemma ClosingShare(h: HostRef, c: u32, r: u16, winner: u16)
    requires RefOk(h) && MayAnnounce(h, c, r, winner)
    ensures var h' := Respond(h, c, r, winner);
      && 2 * |h'.who| > |h'.participants|
      && (|h'.votes| + 1) * Count(h', winner) >= |h'.participants|
  {
    assert Closes(h, c, r);
    RecordedShare(h, c, r, winner);
  }

  lemma RecordedShare(h: HostRef, c: u32, r: u16, winner: u16)
    requires RefOk(h) && MayAnnounce(h, c, r, winner)
    ensures var h1 := Record(h, c, r);
      && 2 * |h1.who| > |h1.participants|
      && (|h1.votes| + 1) * Count(h1, winner) >= |h1.participants|
  {
    var h1 := Record(h, c, r);
    RecordKeeps(h, c, r);
    SumAtLeast(h1.votes, winner);
    OthersAtMost(h, c, r);
    Spread(|h1.participants|, Missing(h), |h1.votes|, Count(h1, winner));
  }

  /** At closing the announced option is within one vote of every other; only the option just voted for can be ahead. */
  lemma ClosingPlurality(h: HostRef, c: u32, r: u16, winner: u16)
    requires RefOk(h) && MayAnnounce(h, c, r, winner)
    ensures var h' := Respond(h, c, r, winner);
      && (forall s :: Count(h', s) <= Count(h', winner) + 1)
      && (forall s | Count(h', s) > Count(h', winner) :: s == r && Count(h', winner) == Missing(h') + 1)
  {}

  lemma OthersAtMost(h: HostRef, c: u32, r: u16)
    requires RefOk(h) && Admits(h, c)
    ensures var h' := Record(h, c, r);
      && |h'.votes| > 0 && |h'.who| <= Missing(h) + 1 + (|h'.votes| - 1) * Missing(h)
  {
    RecordKeeps(h, c, r);
    var h' := Record(h, c, r);
    var others := h'.votes - {r};
    SumWithout(h'.votes, r);
    assert others.Keys == h'.votes.Keys - {r};
    SumAtMost(others, Missing(h));
    assert |others| == |h'.votes| - 1;
  }

  lemma Spread(p: nat, m: nat, k: nat, x: nat)
    requires k > 0 && x >= m && p <= 2 * m + (k - 1) * m
    ensures (k + 1) * x >= p
  {}

  /** A referendum with participants is closed at the latest by the last participant's first answer. */
  lemma LastVoteCloses(h: HostRef, c: u32, r: u16)
    requires RefOk(h) && Admits(h, c) && h.who + {c} == h.participants
    ensures Closes(h, c, r)
  {}

  lemma RecordCounts(h: HostRef, c: u32, r: u16, s: u16)
    requires RefOk(h) && Admits(h, c)
    ensures Count(Record(h, c, r), s) == Count(h, s) + (if s == r then 1 else 0)
    ensures Count(h, s) <= Missing(h)
  {}

  /** Every possible announcement is a plurality exactly when the answer does not put itself two votes over
      what is missing beside an option that is one vote over it. */
  lemma PluralityExactly(h: HostRef, c: u32, r: u16)
    requires RefOk(h) && Closes(h, c, r)
    ensures (forall w | MayAnnounce(h, c, r, w) :: forall s :: Count(Record(h, c, r), s) <= Count(Record(h, c, r), w))
       <==> !(Count(h, r) == Missing(h) && exists s | s != r :: Count(h, s) == Missing(h))
  {
    RecordKeeps(h, c, r);
    var h1 := Record(h, c, r);
    if Count(h, r) == Missing(h) && exists s | s != r :: Count(h, s) == Missing(h) {
      var s :| s != r && Count(h, s) == Missing(h);
      assert MayAnnounce(h, c, r, s);
      assert Count(h1, r) > Count(h1, s);
    } else {
      var m := Missing(h);
      forall w, s | MayAnnounce(h, c, r, w) ensures Count(h1, s) <= Count(h1, w) {
        RecordCounts(h, c, r, s);
        RecordCounts(h, c, r, w);
        assert Count(h1, w) >= m;
        assert s == r && w != r ==> Count(h, r) < m || Count(h, w) != m;
      }
    }
  }

  // ----- early call against a sound rule -----

  /** The votes after some further ballots. */
  function AddBallots(votes: map<u16, nat>, ballots: seq<u16>): map<u16, nat>
    decreases |ballots|
  {
    if ballots == [] then votes
    else AddBallots(votes[ballots[0] := (if ballots[0] in votes then votes[ballots[0]] else 0) + 1], ballots[1..])
  }

  function Of(votes: map<u16, nat>, r: u16): nat {
    if r in votes then votes[r] else 0
  }

  ghost predicate StrictPlurality(votes: map<u16, nat>, r: u16) {
    forall s: u16 | s != r :: Of(votes, r) > Of(votes, s)
  }

  /** `r` stays ahead of every other option, voted for or not, even if all missing votes go to that one. */
  ghost predicate Decided(votes: map<u16, nat>, missing: nat, r: u16) {
    forall s: u16 | s != r :: Of(votes, r) > Of(votes, s) + missing
  }

  lemma {:induction false} BallotsMove(votes: map<u16, nat>, ballots: seq<u16>, r: u16, s: u16)
    requires r != s
    ensures Of(votes, r) <= Of(AddBallots(votes, ballots), r)
    ensures Of(AddBallots(votes, ballots), s) - Of(votes, s) <= |ballots|
    decreases |ballots|
  {
    if ballots != [] {
      BallotsMove(votes[ballots[0] := Of(votes, ballots[0]) + 1], ballots[1..], r, s);
    }
  }

  lemma {:induction false} AllFor(votes: map<u16, nat>, n: nat, r: u16, s: u16)
    requires r != s
    ensures Of(AddBallots(votes, seq(n, _ => s)), s) == Of(votes, s) + n
    ensures Of(AddBallots(votes, seq(n, _ => s)), r) == Of(votes, r)
    decreases n
  {
    if n > 0 {
      assert seq(n, _ => s)[1..] == seq(n - 1, _ => s);
      AllFor(votes[s := Of(votes, s) + 1], n - 1, r, s);
    }
  }

  lemma DecidedWins(votes: map<u16, nat>, missing: nat, r: u16, ballots: seq<u16>)
    requires Decided(votes, missing, r) && |ballots| == missing
    ensures StrictPlurality(AddBallots(votes, ballots), r)
  {
    forall s: u16 | s != r ensures Of(AddBallots(votes, ballots), r) > Of(AddBallots(votes, ballots), s) {
      BallotsMove(votes, ballots, r, s);
    }
  }

  /** The README's promise, "their votes will not be able to sway the vote another way", holds of an announced
      option exactly when it is decided. */
  lemma IrreversibleExactly(votes: map<u16, nat>, missing: nat, r: u16)
    ensures (forall b: seq<u16> | |b| == missing :: StrictPlurality(AddBallots(votes, b), r))
       <==> Decided(votes, missing, r)
  {
    if Decided(votes, missing, r) {
      forall b: seq<u16> | |b| == missing ensures StrictPlurality(AddBallots(votes, b), r) {
        DecidedWins(votes, missing, r, b);
      }
    } else {
      var s: u16 :| s != r && Of(votes, r) <= Of(votes, s) + missing;
      AllFor(votes, missing, r, s);
      var b := seq(missing, _ => s);
      assert |b| == missing && !StrictPlurality(AddBallots(votes, b), r);
    }
  }

  /** A decided option stays decided through every continuation. */
  lemma {:induction false} DecidedStays(votes: map<u16, nat>, missing: nat, w: u16, ballots: seq<u16>)
    requires Decided(votes, missing, w) && |ballots| <= missing
    ensures Decided(AddBallots(votes, ballots), missing - |ballots|, w)
    decreases |ballots|
  {
    if ballots != [] {
      var more := votes[ballots[0] := Of(votes, ballots[0]) + 1];
      forall s: u16 | s != w ensures Of(more, w) > Of(more, s) + (missing - 1) {
        assert Of(votes, w) > Of(votes, s) + missing;
      }
      DecidedStays(more, missing - 1, w, ballots[1..]);
    }
  }

  lemma DecidedImpliesCallable(h: HostRef, w: u16)
    requires WhoOk(h) && Decided(h.votes, Missing(h), w)
    ensures Callable(h, w)
  {
    var other: u16 := if w == UNSAT then SAT else UNSAT;
    assert Of(h.votes, w) > Of(h.votes, other) + Missing(h);
  }

  /** The code never closes later than a rule that waits for a decided option would: the answer that decides an
      option closes the referendum, and an open referendum has no decided option. */
  lemma ClosesNoLater(h: HostRef, c: u32, r: u16, w: u16)
    requires RefOk(h) && Admits(h, c)
    ensures !Decided(h.votes, Missing(h), w)
    ensures WhoOk(Record(h, c, r))
    ensures Decided(Record(h, c, r).votes, Missing(Record(h, c, r)), w) ==> Closes(h, c, r) && MayAnnounce(h, c, r, w)
  {
    RecordKeeps(h, c, r);
    assert !Callable(h, w);
    if Decided(h.votes, Missing(h), w) {
      DecidedImpliesCallable(h, w);
    }
    if Decided(Record(h, c, r).votes, Missing(Record(h, c, r)), w) {
      DecidedImpliesCallable(Record(h, c, r), w);
    }
  }

  /** A callable option is decided exactly when its lead over each other option exceeds what is missing;
      in particular when it is the only option voted for. */
  lemma CallableDecided(h: HostRef, w: u16)
    requires WhoOk(h) && Callable(h, w)
    ensures Decided(h.votes, Missing(h), w)
       <==> forall s | s in h.votes && s != w :: h.votes[w] > h.votes[s] + Missing(h)
    ensures h.votes.Keys == {w} ==> Decided(h.votes, Missing(h), w)
  {
    forall s | s in h.votes && s != w && Decided(h.votes, Missing(h), w) ensures h.votes[w] > h.votes[s] + Missing(h) {
      assert Of(h.votes, w) > Of(h.votes, s) + Missing(h);
    }
  }

  /** Of the closing answer: what is announced is beyond the reach of the missing votes exactly when it is the only
      option voted for, or it is the option just voted for, that answer took it from equal to what was missing to one
      above, and every other option has a single vote. */
  lemma AnnouncedDecidedExactly(h: HostRef, c: u32, r: u16, w: u16)
    requires RefOk(h) && MayAnnounce(h, c, r, w)
    ensures var h1 := Record(h, c, r);
      WhoOk(h1) &&
      (Decided(h1.votes, Missing(h1), w) <==>
        || h1.votes.Keys == {w}
        || (w == r && Count(h, r) == Missing(h) && forall s | s in h1.votes && s != w :: h1.votes[s] == 1))
  {
    var h1 := Record(h, c, r);
    RecordKeeps(h, c, r);
    CallableDecided(h1, w);
    RecordCounts(h, c, r, w);
    if Decided(h1.votes, Missing(h1), w) && h1.votes.Keys != {w} {
      var s :| s in h1.votes && s != w;
      assert h1.votes[s] >= 1;
    }
  }

  // ----- witnesses -----

  lemma {:induction false} OneMoreAnswer(h: HostRef, answers: seq<(u32, u16)>, a: (u32, u16), winner: u16)
    requires RefOk(h) && AnswersAllowed(h, answers, winner)
    ensures RefOk(AnswerAll(h, answers, winner))
    ensures AnswerAll(h, answers + [a], winner) == Respond(AnswerAll(h, answers, winner), a.0, a.1, winner)
    ensures AnswersAllowed(h, answers + [a], winner)
       <==> (Closes(AnswerAll(h, answers, winner), a.0, a.1) ==>
               MayAnnounce(AnswerAll(h, answers, winner), a.0, a.1, winner))
    decreases |answers|
  {
    if answers == [] {
      assert answers + [a] == [a];
    } else {
      RespondKeeps(h, answers[0].0, answers[0].1, winner);
      assert (answers + [a])[1..] == answers[1..] + [a];
      OneMoreAnswer(Respond(h, answers[0].0, answers[0].1, winner), answers[1..], a, winner);
    }
  }

  /** `answers` bring the referendum from `h` to `h'`. */
  ghost predicate Brings(h: HostRef, answers: seq<(u32, u16)>, winner: u16, h': HostRef)
    requires RefOk(h)
  {
    AnswersAllowed(h, answers, winner) && AnswerAll(h, answers, winner) == h' && RefOk(h')
  }

  /** One more answer that leaves the referendum open. */
  lemma Quiet(h0: HostRef, answers: seq<(u32, u16)>, w: u16, h: HostRef, c: u32, r: u16)
    requires RefOk(h0) && Brings(h0, answers, w, h) && Admits(h, c)
    requires forall s | s in Record(h, c, r).votes :: Record(h, c, r).votes[s] < Missing(h)
    ensures RefOk(Record(h, c, r)) && Brings(h0, answers + [(c, r)], w, Record(h, c, r))
    ensures Missing(Record(h, c, r)) == Missing(h) - 1
  {
    RecordKeeps(h, c, r);
    var h1 := Record(h, c, r);
    assert forall s | s in h1.votes :: !Callable(h1, s);
    RespondKeeps(h, c, r, w);
    OneMoreAnswer(h0, answers, (c, r), w);
  }

  /** One more answer after which `w` is announced. */
  lemma Final(h0: HostRef, answers: seq<(u32, u16)>, w: u16, h: HostRef, c: u32, r: u16)
    requires RefOk(h0) && Brings(h0, answers, w, h) && MayAnnounce(h, c, r, w)
    ensures Brings(h0, answers + [(c, r)], w, Record(h, c, r).(ongoing := false, result := w))
    ensures Missing(Record(h, c, r)) == Missing(h) - 1
  {
    RecordKeeps(h, c, r);
    assert Closes(h, c, r);
    RespondKeeps(h, c, r, w);
    OneMoreAnswer(h0, answers, (c, r), w);
  }

  ghost predicate NineVoters(voters: set<u32>) {
    |voters| == 9 && {1, 2, 3, 4, 5, 6} <= voters
  }

  lemma TwoOfNine(h0: HostRef, w: u16) returns (answers: seq<(u32, u16)>, h: HostRef)
    requires NineVoters(h0.participants) && h0 == NewHost(h0.question, h0.participants) && RefOk(h0)
    ensures Brings(h0, answers, w, h) && h.ongoing && h.participants == h0.participants && h.who == {1, 2}
    ensures h.votes == map[SAT := 1, UNSAT := 1] && Missing(h) == 7
  {
    answers, h := [], h0;
    assert Missing(h) == 9;
    Quiet(h0, answers, w, h, 1, SAT);
    answers, h := answers + [(1, SAT)], Record(h, 1, SAT);
    Quiet(h0, answers, w, h, 2, UNSAT);
    answers, h := answers + [(2, UNSAT)], Record(h, 2, UNSAT);
  }

  lemma FourOfNine(h0: HostRef, w: u16) returns (answers: seq<(u32, u16)>, h: HostRef)
    requires NineVoters(h0.participants) && h0 == NewHost(h0.question, h0.participants) && RefOk(h0)
    ensures Brings(h0, answers, w, h) && h.ongoing && h.participants == h0.participants && h.who == {1, 2, 3, 4}
    ensures h.votes == map[SAT := 2, UNSAT := 2] && Missing(h) == 5
  {
    answers, h := TwoOfNine(h0, w);
    Quiet(h0, answers, w, h, 3, SAT);
    answers, h := answers + [(3, SAT)], Record(h, 3, SAT);
    Quiet(h0, answers, w, h, 4, UNSAT);
    answers, h := answers + [(4, UNSAT)], Record(h, 4, UNSAT);
  }

  lemma FiveOfNine(h0: HostRef, w: u16) returns (answers: seq<(u32, u16)>, h: HostRef)
    requires NineVoters(h0.participants) && h0 == NewHost(h0.question, h0.participants) && RefOk(h0)
    ensures Brings(h0, answers, w, h) && h.ongoing && h.participants == h0.participants && h.who == {1, 2, 3, 4, 5}
    ensures h.votes == map[SAT := 3, UNSAT := 2] && Missing(h) == 4
  {
    answers, h := FourOfNine(h0, w);
    Quiet(h0, answers, w, h, 5, SAT);
    answers, h := answers + [(5, SAT)], Record(h, 5, SAT);
  }

  /** Nine voters, 4 to 2 with 3 missing: the code closes, yet the three missing votes could have turned the result. */
  lemma ReversibleCall(question: bytes, voters: set<u32>) returns (answers: seq<(u32, u16)>, h: HostRef)
    requires NineVoters(voters)
    ensures RefOk(NewHost(question, voters)) && Brings(NewHost(question, voters), answers, SAT, h)
    ensures !h.ongoing && h.result == SAT && h.votes == map[SAT := 4, UNSAT := 2] && Missing(h) == 3
    ensures !Decided(h.votes, Missing(h), SAT)
    ensures StrictPlurality(AddBallots(h.votes, [UNSAT, UNSAT, UNSAT]), UNSAT)
  {
    NewRefOk(question, voters);
    var h5;
    answers, h5 := FiveOfNine(NewHost(question, voters), SAT);
    RecordKeeps(h5, 6, SAT);
    Final(NewHost(question, voters), answers, SAT, h5, 6, SAT);
    answers, h := answers + [(6, SAT)], Record(h5, 6, SAT).(ongoing := false, result := SAT);
    assert h.votes == map[SAT := 4, UNSAT := 2];
    ThreeMore(h.votes);
  }

  lemma ThreeMore(votes: map<u16, nat>)
    requires votes == map[SAT := 4, UNSAT := 2]
    ensures StrictPlurality(AddBallots(votes, [UNSAT, UNSAT, UNSAT]), UNSAT)
    ensures !Decided(votes, 3, SAT)
  {
    var three := [UNSAT, UNSAT, UNSAT];
    assert three == seq(3, _ => UNSAT);
    AllFor(votes, 3, SAT, UNSAT);
    assert Of(AddBallots(votes, three), UNSAT) == 5 && Of(AddBallots(votes, three), SAT) == 4;
    forall s: u16 | s != UNSAT ensures Of(AddBallots(votes, three), s) <= 4 {
      BallotsMove(votes, three, UNSAT, s);
    }
    assert Of(votes, SAT) <= Of(votes, UNSAT) + 3;
  }

  /** Three voters, 2 to 1 with nobody missing: both options pass the test, so the minority may be announced. */
  lemma MinorityAnnounced(question: bytes) returns (answers: seq<(u32, u16)>, h: HostRef)
    ensures RefOk(NewHost(question, {1, 2, 3}))
    ensures Brings(NewHost(question, {1, 2, 3}), answers, UNSAT, h)
    ensures !h.ongoing && h.result == UNSAT && h.votes == map[SAT := 2, UNSAT := 1] && Missing(h) == 0
  {
    var h0 := NewHost(question, {1, 2, 3});
    NewRefOk(question, {1, 2, 3});
    answers, h := [], h0;
    assert Missing(h) == 3;
    Quiet(h0, answers, UNSAT, h, 1, SAT);
    answers, h := answers + [(1, SAT)], Record(h, 1, SAT);
    Quiet(h0, answers, UNSAT, h, 2, UNSAT);
    answers, h := answers + [(2, UNSAT)], Record(h, 2, UNSAT);
    RecordKeeps(h, 3, SAT);
    Final(h0, answers, UNSAT, h, 3, SAT);
    answers, h := answers + [(3, SAT)], Record(h, 3, SAT).(ongoing := false, result := UNSAT);
  }
}
