/** What the ARQ guarantees in every run, and exactly where its 32-bit numbers end the guarantee. */
module ArqTheorems {
  import opened Bytes
  import opened Packet
  import opened Messages
  import opened SlidingWindow
  import opened Arq
  import Runs

  // ----- both directions -----

  lemma StepFlip(l: Link, l': Link)
    requires Step(l, l')
    ensures Step(Flip(l), Flip(l'))
  {
    var side, act :| CanApply(l, side, act) && l' == Apply(l, side, act);
    var other := if side == A then B else A;
    assert Flip(Flip(l)) == l && Flip(Flip(l')) == l';
    assert CanApply(Flip(l), other, act) && Flip(l') == Apply(Flip(l), other, act);
  }

  /** Links have no preferred side: what is stated below for a towards b holds for b towards a. */
  lemma ReachableFlip(l: Link)
    ensures Reachable(l) <==> Reachable(Flip(l))
  {
    if Reachable(l) {
      FlippedRun(l);
    }
    if Reachable(Flip(l)) {
      assert Flip(Flip(l)) == l;
      FlippedRun(Flip(l));
    }
  }

  lemma FlippedRun(l: Link)
    requires Reachable(l)
    ensures Reachable(Flip(l))
  {
    var s :| Init(s) && Runs.Reaches(Step, s, l);
    forall x, y | Step(x, y) ensures Step(Flip(x), Flip(y)) {
      StepFlip(x, y);
    }
    Runs.ReachesMapped(Step, Step, Flip, s, l);
    assert Init(Flip(s));
  }

  // ----- safety -----

  /** Packet `i` as queued by `x` has been taken in by `y`, with exactly the body queued at position `i`. */
  ghost predicate Delivered(x: Endpoint, y: Endpoint, i: u32) {
    exists p :: (p in y.accepted || p in y.pending)
             && p.header.packetNum == i && i < |x.queued| && p.body == x.queued[i]
  }

  ghost predicate AllDelivered(l: Link) {
    forall i: u32 | i < l.a.sender.windowStart :: Delivered(l.a, l.b, i)
  }

  /** Whatever the receiver accepts or processes was queued by the sender; numbers are positions modulo 2^32. */
  lemma NothingInvented(l: Link, p: Pckt)
    requires Reachable(l)
    requires p in l.b.accepted || p in l.b.pending || p in l.b.processed || p in l.b.receiver.incoming.Values
    ensures QueuedAs(l.a, p.header.packetNum, p.body)
  {
    ReachableInv(l);
    assert WireOk(l.a, p);
  }

  /** While numbers have not been reused, everything the window has passed has been taken in, body for body;
      once no handler is between its ACK and the receiver's lock, it has been accepted. */
  lemma WindowPassesOnlyDelivered(l: Link, i: u32)
    requires Reachable(l) && |l.a.queued| <= TWO_TO_THE_32 && i < l.a.sender.windowStart
    ensures Delivered(l.a, l.b, i)
    ensures l.b.pending == multiset{} ==>
              exists p | p in l.b.accepted :: p.header.packetNum == i && p.body == l.a.queued[i]
  {
    PassedIsGot(l, i);
    var p :| (p in l.b.accepted || p in l.b.pending) && p.header.packetNum == i;
    NothingInvented(l, p);
    NumberIsPosition(l.a, i, p.body);
    assert p in l.b.accepted || p in l.b.pending;
  }

  lemma PassedIsGot(l: Link, i: u32)
    requires Reachable(l) && i < l.a.sender.windowStart
    ensures Got(l.b, i) && i < |l.a.queued|
  {
    ReachableInv(l);
  }

  lemma NumberIsPosition(x: Endpoint, num: u32, body: bytes)
    requires QueuedAs(x, num, body) && |x.queued| <= TWO_TO_THE_32
    ensures num < |x.queued| && x.queued[num] == body
  {}

  /** When both ends run this code no NAK is ever sent, and no DATA number at or past the window's end is. */
  lemma BoundedSending(l: Link, p: Pckt)
    requires Reachable(l) && p in l.ab
    ensures p.header.kind != NAK
    ensures p.header.kind == DATA ==> p.header.packetNum < l.a.sender.windowStart + WINDOW_SIZE
    ensures p.header.isFinal == 1 || p.header.kind != DATA
  {
    ReachableInv(l);
    assert WireOk(l.a, p);
  }

  /** An acknowledged packet stays acknowledged, except when its number is handed out again. */
  lemma AckStability(l: Link, act: Action, i: u32)
    requires Reachable(l) && CanApply(l, A, act) && Acked(l.a.sender, i)
    ensures Acked(Apply(l, A, act).a.sender, i)
       <==> !(act.Queue? && |act.body| <= MAX_PCKT_SIZE && l.a.sender.nextPcktNum == i)
    ensures act.Queue? && l.a.sender.nextPcktNum == i ==> |l.a.queued| >= TWO_TO_THE_32
  {
    ReachableInv(l);
    AckStays(l.a, act, i);
  }

  lemma AckStays(x: Endpoint, act: Action, i: u32)
    requires SenderOk(x) && Acked(x.sender, i)
    ensures Acked(Act(x, act).sender, i) <==> !(act.Queue? && |act.body| <= MAX_PCKT_SIZE && x.sender.nextPcktNum == i)
    ensures act.Queue? && x.sender.nextPcktNum == i ==> |x.queued| >= TWO_TO_THE_32
  {}

  // ----- the end of the number space -----

  /** Below 2^32 - 5 the window is the five numbers from its start; from there on it is empty for good. */
  lemma WindowBounds(l: Link)
    requires Reachable(l)
    ensures l.a.sender.windowStart <= TWO_TO_THE_32 - 6 ==>
              WindowEnd(l.a.sender) == l.a.sender.windowStart + WINDOW_SIZE
    ensures l.a.sender.windowStart > TWO_TO_THE_32 - 6 ==>
              WindowUnacked(l.a.sender) == {} && Slide(l.a.sender) == l.a.sender
  {
    ReachableInv(l);
  }

  ghost predicate StuckAt(l: Link, w: u32) {
    Inv(l) && l.a.sender.windowStart == w && w > TWO_TO_THE_32 - 6
  }

  lemma StuckStep(l: Link, m: Link, w: u32)
    requires StuckAt(l, w) && Step(l, m)
    ensures StuckAt(m, w)
  {
    StepKeeps(l, m);
    var side, act :| CanApply(l, side, act) && m == Apply(l, side, act);
    StuckAct(l.a, act);
  }

  lemma StuckAct(x: Endpoint, act: Action)
    requires x.sender.windowSize == WINDOW_SIZE && x.sender.windowStart > TWO_TO_THE_32 - 6
    ensures Act(x, act).sender.windowStart == x.sender.windowStart
  {}

  /** In no run does the window start move again once it is past 2^32 - 6. */
  lemma StuckForever(l: Link, l': Link)
    requires Reachable(l) && l.a.sender.windowStart > TWO_TO_THE_32 - 6 && Runs.Reaches(Step, l, l')
    ensures l'.a.sender.windowStart == l.a.sender.windowStart
  {
    ReachableInv(l);
    var w := l.a.sender.windowStart;
    var stuck := s => StuckAt(s, w);
    forall s, t | stuck(s) && Step(s, t) ensures stuck(t) {
      StuckStep(s, t, w);
    }
    var n: nat :| Runs.ReachesIn(Step, l, l', n);
    Runs.InductiveAlong(Step, stuck, l, l', n);
  }

  // ----- progress -----

  /** Where the window start is after a slide over the whole window. */
  function Target(l: Link): nat {
    if l.a.sender.windowStart + WINDOW_SIZE < Issued(l.a) then l.a.sender.windowStart + WINDOW_SIZE else Issued(l.a)
  }

  /** Every issued packet of the window has been acknowledged. */
  ghost predicate WindowAcked(l: Link) {
    forall i: u32 | l.a.sender.windowStart <= i < Target(l) :: Acked(l.a.sender, i)
  }

  /** One slide never advances by more than the window size. */
  lemma SlideAtMostWindow(s: Sender)
    requires s.windowSize == WINDOW_SIZE
    ensures s.windowStart <= Slide(s).windowStart <= s.windowStart + WINDOW_SIZE
  {
    SlideMeaning(s, Slide(s).windowStart);
  }

  /** The window start can still move, or nothing is outstanding. */
  predicate CanAdvance(l: Link) {
    l.a.sender.windowStart <= TWO_TO_THE_32 - 6 || l.a.sender.windowStart == Issued(l.a)
  }

  /** With its window acknowledged, one slide advances by exactly the window size or to the end of what is queued. */
  lemma SlideOverAckedWindow(l: Link)
    requires Inv(l) && WindowAcked(l) && CanAdvance(l)
    ensures Slide(l.a.sender).windowStart == Target(l)
  {
    var s, j := l.a.sender, Target(l);
    if j < WindowEnd(s) {
      assert !Acked(s, j);
    }
    SlideMeaning(s, j);
  }

  /** The peer receives packet `i` and its ACK arrives: nothing else about the sender changes. */
  function Exchange(l: Link, i: u32): Link
    requires i in l.a.sender.outgoing
  {
    var p := l.a.sender.outgoing[i].pckt;
    var m := Apply(l, B, ReceiveData(p, true));
    Apply(m, A, ReceiveControl(Control(ACK, l.b.selfId, i, 0), false))
  }

  lemma ExchangeRuns(l: Link, i: u32)
    requires Inv(l) && i in l.a.sender.outgoing && l.a.sender.outgoing[i].pckt in l.ab
    ensures Runs.Reaches(Step, l, Exchange(l, i)) && Inv(Exchange(l, i))
    ensures Exchange(l, i).a == l.a.(sender := AckStep(l.a.sender, i)) && Exchange(l, i).ab == l.ab
  {
    var p := l.a.sender.outgoing[i].pckt;
    assert EntryOk(l.a, i);
    ReceiveRuns(l, p);
    var m := Apply(l, B, ReceiveData(p, true));
    AckRuns(m, Control(ACK, l.b.selfId, i, 0));
    Runs.ReachesMore(Step, l, m, Exchange(l, i));
  }

  lemma ExchangeReceives(l: Link, i: u32)
    requires i in l.a.sender.outgoing
    ensures Exchange(l, i).b == l.b.(pending := l.b.pending + multiset{l.a.sender.outgoing[i].pckt})
  {}

  lemma ReceiveRuns(l: Link, p: Pckt)
    requires Inv(l) && p in l.ab && p.header.kind == DATA
    ensures var m := Apply(l, B, ReceiveData(p, true));
      && Runs.Reaches(Step, l, m) && Inv(m) && m.a == l.a && m.ab == l.ab
      && Control(ACK, l.b.selfId, p.header.packetNum, p.header.sequenceNum) in m.ba
  {
    var receive := ReceiveData(p, true);
    assert CanApply(l, B, receive);
    StepInv(l, B, receive);
    Runs.ReachesOne(Step, l, Apply(l, B, receive));
  }

  lemma AckRuns(m: Link, ack: Pckt)
    requires Inv(m) && ack in m.ba && ack.header.kind == ACK
    ensures var l' := Apply(m, A, ReceiveControl(ack, false));
      && Step(m, l') && Inv(l') && l'.ab == m.ab && l'.a == m.a.(sender := AckStep(m.a.sender, ack.header.packetNum))
  {
    assert CanApply(m, A, ReceiveControl(ack, false));
    StepInv(m, A, ReceiveControl(ack, false));
  }

  /** What is still unacknowledged in the window from `i` on is on the wire. */
  ghost predicate WindowSent(l: Link) {
    forall i: u32 | l.a.sender.windowStart <= i < Target(l) ::
      Acked(l.a.sender, i) || (i in l.a.sender.outgoing && l.a.sender.outgoing[i].pckt in l.ab)
  }

  ghost predicate AckedUpTo(l: Link, i: nat) {
    forall k: u32 | l.a.sender.windowStart <= k < i :: Acked(l.a.sender, k)
  }

  lemma AckOneMore(l: Link, m: Link, i: u32)
    requires WindowSent(l) && AckedUpTo(l, i) && i in l.a.sender.outgoing
    requires m.a == l.a.(sender := AckStep(l.a.sender, i)) && m.ab == l.ab
    ensures WindowSent(m) && AckedUpTo(m, i + 1)
  {
    forall k: u32 | Acked(l.a.sender, k) || k == i ensures Acked(m.a.sender, k) {}
    forall k: u32 | l.a.sender.windowStart <= k < i + 1 ensures Acked(m.a.sender, k) {
      assert k < i ==> Acked(l.a.sender, k);
    }
  }

  lemma ExchangeNext(l: Link, i: u32) returns (m: Link)
    requires Reachable(l) && WindowSent(l) && l.a.sender.windowStart <= i < Target(l) && AckedUpTo(l, i)
    requires !Acked(l.a.sender, i)
    ensures Runs.Reaches(Step, l, m) && Reachable(m) && WindowSent(m) && AckedUpTo(m, i + 1) && Target(m) == Target(l)
    ensures m.a.queued == l.a.queued && m.a.sender.windowStart == l.a.sender.windowStart
  {
    ReachableInv(l);
    ExchangeRuns(l, i);
    m := Exchange(l, i);
    Runs.ReachableMore(Init, Step, l, m);
    AckOneMore(l, m, i);
  }

  lemma {:induction false} ExchangeAll(l: Link, i: nat) returns (l': Link)
    requires Reachable(l) && WindowSent(l) && l.a.sender.windowStart <= i <= Target(l) && AckedUpTo(l, i)
    ensures Runs.Reaches(Step, l, l') && WindowAcked(l')
    ensures l'.a.queued == l.a.queued && l'.a.sender.windowStart == l.a.sender.windowStart
    decreases Target(l) - i
  {
    if i == Target(l) {
      Runs.ReachesSelf(Step, l);
      l' := l;
    } else if Acked(l.a.sender, i) {
      l' := ExchangeAll(l, i + 1);
    } else {
      var m := ExchangeNext(l, i);
      l' := ExchangeAll(m, i + 1);
      Runs.ReachesTransitive(Step, l, m, l');
    }
  }

  /** A run of any length, without new packets or slides of a's, at the end of which every packet of the window
      has been acknowledged; then one slide. */
  ghost predicate GoodRound(l: Link, l': Link) {
    exists m :: AllGetThrough(l, m) && l' == Apply(m, A, SendWindow({}))
  }

  ghost predicate AllGetThrough(l: Link, m: Link) {
    && Runs.Reaches(Step, l, m) && WindowAcked(m)
    && m.a.queued == l.a.queued && m.a.sender.windowStart == l.a.sender.windowStart
  }

  /** Every round in which all window packets and their ACKs get through advances the window by exactly
      min(window size, outstanding). */
  lemma RoundAdvances(l: Link, l': Link)
    requires Reachable(l) && CanAdvance(l) && GoodRound(l, l')
    ensures Reachable(l') && l'.a.queued == l.a.queued && l'.a.sender.windowStart == Target(l)
  {
    var m :| AllGetThrough(l, m) && l' == Apply(m, A, SendWindow({}));
    Runs.ReachableMore(Init, Step, l, m);
    SlideOnce(m);
  }

  lemma SlideOnce(m: Link)
    requires Reachable(m) && WindowAcked(m) && CanAdvance(m)
    ensures var l' := Apply(m, A, SendWindow({}));
      Reachable(l') && l'.a.queued == m.a.queued && l'.a.sender.windowStart == Target(m)
  {
    ReachableInv(m);
    SlideOverAckedWindow(m);
    assert CanApply(m, A, SendWindow({}));
    Runs.ReachableNext(Init, Step, m, Apply(m, A, SendWindow({})));
  }

  /** Such a round is always possible: everything unacknowledged in the window is sent once and acknowledged once. */
  lemma RoundExists(l: Link) returns (l': Link)
    requires Reachable(l) && CanAdvance(l)
    ensures GoodRound(l, l')
  {
    var l1 := SendAll(l);
    var m := ExchangeAll(l1, l1.a.sender.windowStart);
    Runs.ReachesTransitive(Step, l, l1, m);
    assert AllGetThrough(l, m);
    l' := Apply(m, A, SendWindow({}));
  }

  lemma SendAll(l: Link) returns (l': Link)
    requires Reachable(l) && CanAdvance(l)
    ensures Runs.Reaches(Step, l, l') && Reachable(l') && WindowSent(l') && l'.a == l.a
    ensures l.a.sender.windowStart <= Target(l)
  {
    ReachableInv(l);
    var send := Retransmit(WindowUnacked(l.a.sender));
    l' := Apply(l, A, send);
    assert CanApply(l, A, send);
    Runs.ReachesOne(Step, l, l');
    Runs.ReachableMore(Init, Step, l, l');
  }

  /** The window start after `n` rounds. */
  function StartAfter(l: Link, n: nat): nat {
    if l.a.sender.windowStart + 5 * n < |l.a.queued| then l.a.sender.windowStart + 5 * n else |l.a.queued|
  }

  ghost predicate AfterRounds(l: Link, m: Link, n: nat) {
    Reachable(m) && m.a.queued == l.a.queued && m.a.sender.windowStart == StartAfter(l, n)
  }

  lemma ShortQueue(l: Link)
    requires Reachable(l) && |l.a.queued| <= TWO_TO_THE_32 - 5
    ensures CanAdvance(l) && Target(l) == StartAfter(l, 1) && AfterRounds(l, l, 0)
  {
    ReachableInv(l);
  }

  lemma OneRoundMore(l: Link, m: Link, l': Link, n: nat)
    requires |l.a.queued| <= TWO_TO_THE_32 - 5 && AfterRounds(l, m, n) && GoodRound(m, l')
    ensures AfterRounds(l, l', n + 1)
  {
    ShortQueue(m);
    RoundAdvances(m, l');
  }

  lemma RoundsAdvance(l: Link, l': Link, n: nat)
    requires |l.a.queued| <= TWO_TO_THE_32 - 5 && AfterRounds(l, l, 0) && Runs.ReachesIn(GoodRound, l, l', n)
    ensures AfterRounds(l, l', n)
  {
    var after := (m, k: nat) => AfterRounds(l, m, k);
    forall m, k: nat, m' | after(m, k) && GoodRound(m, m') ensures after(m', k + 1) {
      OneRoundMore(l, m, m', k);
    }
    Runs.CountedAlong(GoodRound, after, l, l', n);
  }

  lemma {:induction false} RoundsExist(l: Link, n: nat) returns (l': Link)
    requires |l.a.queued| <= TWO_TO_THE_32 - 5 && AfterRounds(l, l, 0)
    ensures Runs.ReachesIn(GoodRound, l, l', n)
    decreases n
  {
    if n == 0 {
      l' := l;
    } else {
      var m := RoundsExist(l, n - 1);
      RoundsAdvance(l, m, n - 1);
      ShortQueue(m);
      l' := RoundExists(m);
    }
  }

  /** From every reachable state n such rounds are possible, and whichever way they go, they clear everything
      outstanding exactly when 5n is at least that many, as long as no number needed is 2^32 - 5 or above. */
  lemma OutstandingClears(l: Link, n: nat)
    requires Reachable(l) && |l.a.queued| <= TWO_TO_THE_32 - 5
    ensures exists l' :: Runs.ReachesIn(GoodRound, l, l', n)
    ensures forall l' | Runs.ReachesIn(GoodRound, l, l', n) ::
              l'.a.sender.windowStart == |l.a.queued| <==> 5 * n >= |l.a.queued| - l.a.sender.windowStart
  {
    ShortQueue(l);
    var some := RoundsExist(l, n);
    forall l' | Runs.ReachesIn(GoodRound, l, l', n)
      ensures l'.a.sender.windowStart == |l.a.queued| <==> 5 * n >= |l.a.queued| - l.a.sender.windowStart
    {
      RoundsAdvance(l, l', n);
    }
  }

  // ----- exactly how far delivery is guaranteed -----

  /** A run that only queues: the same body `n` times, nothing on the wire yet. */
  lemma {:induction false} QueueOnly(n: nat, body: bytes) returns (l: Link)
    requires |body| <= MAX_PCKT_SIZE
    ensures Reachable(l) && |l.a.queued| == n && (forall j | 0 <= j < n :: l.a.queued[j] == body)
    ensures l.ab == {} && l.ba == {} && l.b == NewEndpoint(2) && l.a.sender.windowStart == 0
  {
    if n == 0 {
      l := Link(NewEndpoint(1), NewEndpoint(2), {}, {});
      Runs.ReachesSelf(Step, l);
      assert Init(l);
    } else {
      var m := QueueOnly(n - 1, body);
      l := Apply(m, A, Queue(body));
      assert CanApply(m, A, Queue(body));
      Runs.ReachableNext(Init, Step, m, l);
    }
  }

  /** After 2^32 packets the next one reuses number 0: the window then passes a body that was never delivered. This
      happens to any message that is followed by 2^32 others, if the last of them is a different one. */
  lemma NumberReuse(first: Msg, last: Msg) returns (l: Link)
    requires Fits(first) && Fits(last) && first != last
    ensures Reachable(l) && |l.a.queued| == TWO_TO_THE_32 + 1
    ensures l.a.queued[0] == Encode(first) && l.a.queued[TWO_TO_THE_32] == Encode(last)
    ensures l.a.sender.windowStart > 0 && !Delivered(l.a, l.b, 0)
  {
    DecodeEncode(first);
    DecodeEncode(last);
    l := ReuseRun(Encode(first), Encode(last));
  }

  lemma ReuseRun(first: bytes, last: bytes) returns (l: Link)
    requires |first| <= MAX_PCKT_SIZE && |last| <= MAX_PCKT_SIZE && first != last
    ensures Reachable(l) && |l.a.queued| == TWO_TO_THE_32 + 1
    ensures l.a.queued[0] == first && l.a.queued[TWO_TO_THE_32] == last
    ensures l.a.sender.windowStart > 0 && !Delivered(l.a, l.b, 0)
  {
    var l0 := QueueOnly(TWO_TO_THE_32, first);
    var l1 := ReuseZero(l0, first, last);
    var l2 := SendZero(l1);
    l := PassZero(l2);
    assert l2.a.sender.outgoing[0].pckt.body == last;
  }

  /** Packet 0 is received and acknowledged, and the window passes it. */
  lemma PassZero(l2: Link) returns (l: Link)
    requires Reachable(l2) && l2.b == NewEndpoint(2) && l2.a.sender.windowSize == WINDOW_SIZE
    requires l2.a.sender.windowStart == 0 && 0 in l2.a.sender.outgoing && l2.a.sender.outgoing[0].pckt in l2.ab
    ensures Reachable(l) && l.a.queued == l2.a.queued && l.a.sender.windowStart > 0
    ensures l.b.accepted == {} && l.b.pending == multiset{l2.a.sender.outgoing[0].pckt}
  {
    var l3 := ExchangeZero(l2);
    l := SlideZero(l3);
  }

  lemma ExchangeZero(l2: Link) returns (l3: Link)
    requires Reachable(l2) && 0 in l2.a.sender.outgoing && l2.a.sender.outgoing[0].pckt in l2.ab
    ensures Reachable(l3) && l3.a == l2.a.(sender := AckStep(l2.a.sender, 0))
    ensures l3.b == l2.b.(pending := l2.b.pending + multiset{l2.a.sender.outgoing[0].pckt})
  {
    ReachableInv(l2);
    ExchangeRuns(l2, 0);
    ExchangeReceives(l2, 0);
    l3 := Exchange(l2, 0);
    Runs.ReachableMore(Init, Step, l2, l3);
  }

  lemma SlideZero(l3: Link) returns (l: Link)
    requires Reachable(l3)
    requires l3.a.sender.windowStart == 0 && l3.a.sender.windowSize == WINDOW_SIZE && Acked(l3.a.sender, 0)
    ensures Reachable(l) && l.a.queued == l3.a.queued && l.a.sender.windowStart > 0 && l.b == l3.b
  {
    l := Apply(l3, A, SendWindow({}));
    assert CanApply(l3, A, SendWindow({}));
    Runs.ReachableNext(Init, Step, l3, l);
    SlideMeaning(l3.a.sender, l.a.sender.windowStart);
  }

  lemma ReuseZero(l0: Link, first: bytes, last: bytes) returns (l1: Link)
    requires Reachable(l0) && |l0.a.queued| == TWO_TO_THE_32 && l0.a.queued[0] == first && |last| <= MAX_PCKT_SIZE
    requires l0.ab == {} && l0.b == NewEndpoint(2) && l0.a.sender.windowStart == 0
    ensures Reachable(l1) && l1.a.queued == l0.a.queued + [last] && l1.b == l0.b
    ensures l1.a.sender.windowStart == 0 && l1.a.sender.windowSize == WINDOW_SIZE
    ensures l1.a.sender.outgoing[0 := OutPckt(DataPckt(l0.a.selfId, 0, last), false)] == l1.a.sender.outgoing
  {
    ReachableInv(l0);
    l1 := Apply(l0, A, Queue(last));
    assert CanApply(l0, A, Queue(last));
    Runs.ReachableNext(Init, Step, l0, l1);
  }

  lemma SendZero(l1: Link) returns (l2: Link)
    requires Reachable(l1) && l1.a.sender.windowStart == 0 && l1.a.sender.windowSize == WINDOW_SIZE
    requires 0 in l1.a.sender.outgoing && !l1.a.sender.outgoing[0].ackReceived
    ensures Reachable(l2) && l2.a == l1.a && l2.b == l1.b && l2.a.sender.outgoing[0].pckt in l2.ab
  {
    assert Slide(l1.a.sender) == l1.a.sender;
    l2 := Apply(l1, A, SendWindow({0}));
    assert CanApply(l1, A, SendWindow({0}));
    Runs.ReachableNext(Init, Step, l1, l2);
  }

  /** Delivery of everything the window passes is guaranteed for up to `n` packets exactly when n <= 2^32. */
  lemma DeliveryExactly(n: nat)
    ensures (forall l | Reachable(l) && |l.a.queued| <= n :: AllDelivered(l)) <==> n <= TWO_TO_THE_32
  {
    if n <= TWO_TO_THE_32 {
      forall l, i: u32 | Reachable(l) && |l.a.queued| <= n && i < l.a.sender.windowStart
        ensures Delivered(l.a, l.b, i)
      {
        WindowPassesOnlyDelivered(l, i);
      }
    } else {
      var v: bytes := seq(16, _ => 0);
      WhatFits(v, [], 0);
      WhatFits(v, [], 1);
      var l := NumberReuse(CastVote(v, 0), CastVote(v, 1));
      assert !AllDelivered(l);
    }
  }

  // ----- the ARQ is an at-least-once, unordered channel -----

  /** A channel delivers any message sent on it, any number of times, in any order, or never. */
  datatype Channel = Channel(sent: seq<bytes>, delivered: seq<bytes>)

  ghost predicate ChannelStep(c: Channel, c': Channel) {
    || (exists b :: c' == c.(sent := c.sent + [b]))
    || (exists b | b in c.sent :: c' == c.(delivered := c.delivered + [b]))
    || c' == c
  }

  /** The channel from a to b that a link implements. */
  function ChannelOf(l: Link): Channel {
    Channel(l.a.queued, Bodies(l.b.processed))
  }

  /** Every step of a link is a step of the channel in either direction. */
  lemma LinkRefinesChannel(l: Link, l': Link)
    requires Reachable(l) && Step(l, l')
    ensures ChannelStep(ChannelOf(l), ChannelOf(l')) && ChannelStep(ChannelOf(Flip(l)), ChannelOf(Flip(l')))
  {
    ReachableInv(l);
    var side, act :| CanApply(l, side, act) && l' == Apply(l, side, act);
    if side == A {
      ActRefines(l, act);
    } else {
      assert Flip(Flip(l)) == l && Flip(Flip(l')) == l';
      ActRefines(Flip(l), act);
    }
  }

  lemma ActRefines(l: Link, act: Action)
    requires Inv(l) && Enabled(l.a, l.ba, act)
    ensures ChannelStep(ChannelOf(l), ChannelOf(ActA(l, act)))
    ensures ChannelStep(ChannelOf(Flip(l)), ChannelOf(Flip(ActA(l, act))))
  {
    var l' := ActA(l, act);
    match act {
      case Queue(body) =>
        assert ChannelOf(Flip(l')) == ChannelOf(Flip(l));
        if |body| <= MAX_PCKT_SIZE {
          assert ChannelOf(l') == ChannelOf(l).(sent := ChannelOf(l).sent + [body]);
        }
      case Process(num) =>
        var p := l.a.receiver.incoming[num];
        ProcessedWasQueued(l, num);
        assert Bodies(l'.a.processed) == Bodies(l.a.processed) + [p.body];
        assert ChannelOf(Flip(l')) == ChannelOf(Flip(l)).(delivered := ChannelOf(Flip(l)).delivered + [p.body]);
      case _ =>
    }
  }

  lemma ProcessedWasQueued(l: Link, num: u32)
    requires Inv(l) && num in l.a.receiver.incoming
    ensures l.a.receiver.incoming[num].body in l.b.queued
  {
    var p := l.a.receiver.incoming[num];
    assert p in Flip(l).ab;
    assert WireOk(l.b, p);
    assert QueuedAs(l.b, p.header.packetNum, p.body);
  }
}
