/** How many participants may answer wrongly before the announced result can be wrong: fewer than a third. */
module Tolerance {
  import opened Bytes
  import opened Wrappers
  import opened Referendum
  import opened EarlyCall

  lemma TwoInSum(m: map<u16, nat>, r: u16, s: u16)
    requires r != s
    ensures Of(m, r) + Of(m, s) <= Sum(m)
  {
    if r in m {
      SumWithout(m, r);
      SumAtLeast(m - {r}, s);
    } else {
      SumAtLeast(m, s);
    }
  }

  /** A closed referendum closed in time: no option is more than two votes above what is missing. */
  ghost predicate Tight(h: HostRef) {
    WhoOk(h) && (!h.ongoing ==> forall r | r in h.votes :: h.votes[r] <= Missing(h) + 2)
  }

  lemma RespondTight(h: HostRef, c: u32, r: u16, winner: u16)
    requires RefOk(h) && Tight(h)
    ensures Tight(Respond(h, c, r, winner))
  {
    if Admits(h, c) {
      RecordKeeps(h, c, r);
    }
  }

  lemma {:induction false} AnswersTight(h: HostRef, answers: seq<(u32, u16)>, winner: u16)
    requires RefOk(h) && Tight(h) && AnswersAllowed(h, answers, winner)
    ensures Tight(AnswerAll(h, answers, winner))
    decreases |answers|
  {
    if answers != [] {
      RespondKeeps(h, answers[0].0, answers[0].1, winner);
      RespondTight(h, answers[0].0, answers[0].1, winner);
      AnswersTight(Respond(h, answers[0].0, answers[0].1, winner), answers[1..], winner);
    }
  }

  /** If fewer than a third of the participants were counted with anything but `r`, the result is `r`. */
  lemma RightResult(h: HostRef, r: u16)
    requires RefOk(h) && Tight(h) && !h.ongoing && 3 * (|h.who| - Count(h, r)) < |h.participants|
    ensures h.result == r
  {
    if h.result != r {
      TwoInSum(h.votes, r, h.result);
    }
  }

  // ----- who is counted with what -----

  /** Participants whose first answer is something other than `r`. */
  function Wrong(participants: set<u32>, answers: seq<(u32, u16)>, r: u16): set<u32> {
    set c | c in participants && FirstAnswer(answers, c).Some? && FirstAnswer(answers, c) != Some(r)
  }

  /** What is counted against `r` comes from different participants who answered wrongly. */
  lemma {:induction false} CountedWrong(h: HostRef, answers: seq<(u32, u16)>, winner: u16, r: u16)
    requires RefOk(h) && AnswersAllowed(h, answers, winner)
    ensures var h' := AnswerAll(h, answers, winner);
      |h'.who| - Count(h', r) <= |h.who| - Count(h, r) + |Wrong(h.participants - h.who, answers, r)|
    decreases |answers|
  {
    if answers != [] {
      var c, a := answers[0].0, answers[0].1;
      var h1 := Respond(h, c, a, winner);
      RespondKeeps(h, c, a, winner);
      CountedWrong(h1, answers[1..], winner, r);
      if Admits(h, c) {
        OneCounted(h, c, a, winner, r);
        WrongLater(h, answers, r);
      } else {
        WrongIgnored(h, answers, winner, r);
      }
    }
  }

  lemma OneCounted(h: HostRef, c: u32, a: u16, winner: u16, r: u16)
    requires RefOk(h) && Admits(h, c)
    ensures var h1 := Respond(h, c, a, winner);
      && h1.who == h.who + {c} && h1.participants == h.participants
      && |h1.who| - Count(h1, r) == |h.who| - Count(h, r) + (if a == r then 0 else 1)
  {}

  lemma WrongLater(h: HostRef, answers: seq<(u32, u16)>, r: u16)
    requires answers != [] && Admits(h, answers[0].0)
    ensures |Wrong(h.participants - (h.who + {answers[0].0}), answers[1..], r)| + (if answers[0].1 == r then 0 else 1)
         == |Wrong(h.participants - h.who, answers, r)|
  {
    var c := answers[0].0;
    var later := Wrong(h.participants - (h.who + {c}), answers[1..], r);
    assert c !in later;
    assert Wrong(h.participants - h.who, answers, r) == later + (if answers[0].1 == r then {} else {c});
  }

  lemma WrongIgnored(h: HostRef, answers: seq<(u32, u16)>, winner: u16, r: u16)
    requires RefOk(h) && AnswersAllowed(h, answers, winner) && answers != [] && !Admits(h, answers[0].0)
    ensures Respond(h, answers[0].0, answers[0].1, winner) == h
    ensures var h' := AnswerAll(h, answers[1..], winner);
      |h'.who| - Count(h', r) <= |h.who| - Count(h, r) + |Wrong(h.participants - h.who, answers[1..], r)| ==>
        |h'.who| - Count(h', r) <= |h.who| - Count(h, r) + |Wrong(h.participants - h.who, answers, r)|
  {
    if h.ongoing {
      assert Wrong(h.participants - h.who, answers[1..], r) == Wrong(h.participants - h.who, answers, r);
    } else {
      AnswersKeep(h, answers[1..], winner);
    }
  }

  // ----- a third is enough to go wrong -----

  /** The rest of the participants, `bad` first with `x` and then the others with `r`, close the referendum with `x`. */
  lemma {:induction false} WrongWins(h: HostRef, bad: set<u32>, x: u16, r: u16) returns (answers: seq<(u32, u16)>)
    requires RefOk(h) && h.ongoing && h.participants != {} && bad <= h.participants - h.who && x != r
    requires Count(h, x) + Count(h, r) == |h.who| && (bad != {} ==> Count(h, r) == 0)
    requires 3 * (Count(h, x) + |bad|) >= |h.participants|
    ensures AnswersAllowed(h, answers, x)
    ensures !AnswerAll(h, answers, x).ongoing && AnswerAll(h, answers, x).result == x
    ensures forall c | FirstAnswer(answers, c).Some? && FirstAnswer(answers, c) != Some(r) :: c in bad
    decreases h.participants - h.who
  {
    var c, a := NextVoter(h, bad, x, r);
    var h1 := Respond(h, c, a, x);
    MayGoWrong(h, bad, c, a, x, r);
    RespondKeeps(h, c, a, x);
    OneCounted(h, c, a, x, r);
    if Closes(h, c, a) {
      answers := [(c, a)];
      assert answers[1..] == [];
    } else {
      RecordCounts(h, c, a, x);
      RecordCounts(h, c, a, r);
      var rest := WrongWins(h1, bad - {c}, x, r);
      answers := [(c, a)] + rest;
      assert answers[1..] == rest;
    }
  }

  lemma NextVoter(h: HostRef, bad: set<u32>, x: u16, r: u16) returns (c: u32, a: u16)
    requires RefOk(h) && h.ongoing && h.participants != {} && bad <= h.participants - h.who
    ensures Admits(h, c) && (c in bad <==> bad != {}) && a == (if bad != {} then x else r)
  {
    OpenBound(h);
    if bad != {} {
      c :| c in bad;
      a := x;
    } else {
      Remaining(h.who, h.participants);
      assert |h.participants - h.who| + |h.who| == |h.participants|;
      c :| c in h.participants - h.who;
      a := r;
    }
  }

  /** If this answer closes the referendum, `x` may be announced. */
  lemma MayGoWrong(h: HostRef, bad: set<u32>, c: u32, a: u16, x: u16, r: u16)
    requires RefOk(h) && Admits(h, c) && x != r && a == (if bad != {} then x else r)
    requires Count(h, x) + Count(h, r) == |h.who| && (bad != {} ==> Count(h, r) == 0)
    requires 3 * (Count(h, x) + |bad|) >= |h.participants|
    ensures Closes(h, c, a) ==> MayAnnounce(h, c, a, x)
  {
    if Closes(h, c, a) {
      var h1 := Record(h, c, a);
      RecordKeeps(h, c, a);
      RecordCounts(h, c, a, x);
      RecordCounts(h, c, a, r);
      var w :| w in h1.votes && Callable(h1, w);
      OnlyTwo(h1, w, x, r);
    }
  }

  lemma OnlyTwo(h: HostRef, w: u16, x: u16, r: u16)
    requires WhoOk(h) && Sum(h.votes) == |h.who| && x != r && Count(h, x) + Count(h, r) == |h.who|
    requires w in h.votes && h.votes[w] > 0
    ensures w == x || w == r
  {
    if w != x && w != r {
      ThreeInSum(h.votes, w, x, r);
    }
  }

  lemma ThreeInSum(m: map<u16, nat>, w: u16, x: u16, r: u16)
    requires w in m && w != x && w != r && x != r
    ensures Of(m, w) + Of(m, x) + Of(m, r) <= Sum(m)
  {
    SumWithout(m, w);
    TwoInSum(m - {w}, x, r);
  }

  lemma {:induction false} SubsetOf(ps: set<u32>, k: nat) returns (some: set<u32>)
    requires k <= |ps|
    ensures some <= ps && |some| == k
  {
    if k == |ps| {
      some := ps;
    } else {
      var c :| c in ps;
      some := SubsetOf(ps - {c}, k);
    }
  }

  // ----- the limit -----

  /** Whatever the order, the repetitions and the outsiders, a referendum that closes announces `r` as long as at most
      `d` participants answer otherwise, if and only if `d` is less than a third of them. */
  lemma ToleranceExactly(question: bytes, participants: set<u32>, d: nat, r: u16)
    requires participants != {}
    ensures (forall answers, winner |
               && AnswersAllowed(NewHost(question, participants), answers, winner)
               && !AnswerAll(NewHost(question, participants), answers, winner).ongoing
               && |Wrong(participants, answers, r)| <= d ::
               AnswerAll(NewHost(question, participants), answers, winner).result == r)
       <==> 3 * d < |participants|
  {
    var h := NewHost(question, participants);
    NewRefOk(question, participants);
    if 3 * d < |participants| {
      forall answers, winner | AnswersAllowed(h, answers, winner) && !AnswerAll(h, answers, winner).ongoing
                            && |Wrong(participants, answers, r)| <= d
        ensures AnswerAll(h, answers, winner).result == r
      {
        TolerantStream(h, answers, winner, r);
      }
    } else {
      var answers, x := WrongStream(h, d, r);
    }
  }

  lemma TolerantStream(h: HostRef, answers: seq<(u32, u16)>, winner: u16, r: u16)
    requires RefOk(h) && h.ongoing && h.who == {} && h.votes == map[] && AnswersAllowed(h, answers, winner)
    requires !AnswerAll(h, answers, winner).ongoing && 3 * |Wrong(h.participants, answers, r)| < |h.participants|
    ensures AnswerAll(h, answers, winner).result == r
  {
    AnswersKeep(h, answers, winner);
    AnswersTight(h, answers, winner);
    CountedWrong(h, answers, winner, r);
    assert h.participants - h.who == h.participants;
    RightResult(AnswerAll(h, answers, winner), r);
  }

  lemma WrongStream(h: HostRef, d: nat, r: u16) returns (answers: seq<(u32, u16)>, x: u16)
    requires RefOk(h) && h.ongoing && h.who == {} && h.votes == map[] && h.participants != {}
    requires 3 * d >= |h.participants|
    ensures AnswersAllowed(h, answers, x) && !AnswerAll(h, answers, x).ongoing && AnswerAll(h, answers, x).result != r
    ensures |Wrong(h.participants, answers, r)| <= d
  {
    var bad := SubsetOf(h.participants, if d <= |h.participants| then d else |h.participants|);
    x := if r == 0 then 1 else 0;
    answers := WrongWins(h, bad, x, r);
    assert Wrong(h.participants, answers, r) <= bad;
    Remaining(Wrong(h.participants, answers, r), bad);
  }
}
