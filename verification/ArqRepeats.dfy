/** How often a packet may be processed: exactly when at most once, and that it may be more often. */
module ArqRepeats {
  import opened Bytes
  import opened Packet
  import opened Messages
  import opened SlidingWindow
  import opened Arq
  import ArqTheorems
  import Runs

  ghost predicate Processed(y: Endpoint, num: u32) {
    exists p | p in y.processed :: p.header.packetNum == num
  }

  /** No number has been processed twice, and none that has been processed is waiting to be processed again. */
  ghost predicate NoRepeats(y: Endpoint) {
    && (forall i, j | 0 <= i < j < |y.processed| :: y.processed[i].header.packetNum != y.processed[j].header.packetNum)
    && (forall num | num in y.receiver.incoming :: !Processed(y, num))
  }

  /** A DATA handler finds the number of its packet free, because the first copy has been processed and deleted. */
  ghost predicate BuffersAgain(y: Endpoint, act: Action) {
    act.Buffer? && Accepts(y.receiver, act.p) && Processed(y, act.p.header.packetNum)
  }

  lemma ProcessedGrows(y: Endpoint, act: Action, num: u32)
    ensures Processed(Act(y, act), num)
       <==> Processed(y, num) || (act.Process? && act.num in y.receiver.incoming
                                  && y.receiver.incoming[act.num].header.packetNum == num)
  {
    var y' := Act(y, act);
    if Processed(y, num) {
      var p :| p in y.processed && p.header.packetNum == num;
      assert p in y'.processed;
    }
    if act.Process? && act.num in y.receiver.incoming && y.receiver.incoming[act.num].header.packetNum == num {
      assert y.receiver.incoming[act.num] in y'.processed;
    }
  }

  /** The duplicate test keeps processing at most once for exactly those steps that do not buffer a processed number. */
  lemma StepRepeatsExactly(y: Endpoint, wire: set<Pckt>, act: Action)
    requires ReceiverOk(y, wire) && Enabled(y, wire, act) && NoRepeats(y)
    ensures NoRepeats(Act(y, act)) <==> !BuffersAgain(y, act)
  {
    var y' := Act(y, act);
    forall num ensures Processed(y', num) <==> Processed(y, num) || (act.Process? && act.num == num) {
      ProcessedGrows(y, act, num);
    }
    if act.Process? {
      forall i | 0 <= i < |y.processed| ensures y.processed[i].header.packetNum != act.num {
        assert y.processed[i] in y.processed;
      }
    }
  }

  /** A repetition is never undone. */
  lemma RepeatsStay(y: Endpoint, wire: set<Pckt>, act: Action)
    requires ReceiverOk(y, wire) && Enabled(y, wire, act) && NoRepeats(Act(y, act))
    ensures NoRepeats(y)
  {
    var y' := Act(y, act);
    forall i, j | 0 <= i < j < |y.processed|
      ensures y.processed[i].header.packetNum != y.processed[j].header.packetNum
    {
      assert y'.processed[i] == y.processed[i] && y'.processed[j] == y.processed[j];
    }
    forall num | num in y.receiver.incoming ensures !Processed(y, num) {
      if act.Process? && act.num == num {
        var k := |y.processed|;
        assert y'.processed[k] == y.receiver.incoming[num];
        assert forall i | 0 <= i < k :: y'.processed[i] == y.processed[i];
      } else {
        ProcessedGrows(y, act, num);
        assert num in y'.receiver.incoming;
      }
    }
  }

  // ----- whole runs -----

  /** A step in which b does not buffer a number again that it has already processed. */
  ghost predicate NoRepeatStep(l: Link, l': Link) {
    exists side, act :: CanApply(l, side, act) && l' == Apply(l, side, act) && !(side == B && BuffersAgain(l.b, act))
  }

  lemma StepKeepsRepeats(l: Link, side: Side, act: Action)
    requires Inv(l) && CanApply(l, side, act)
    ensures NoRepeats(Apply(l, side, act).b) <==> NoRepeats(l.b) && !(side == B && BuffersAgain(l.b, act))
  {
    if side == B {
      assert ReceiverOk(l.b, l.ab) && Apply(l, B, act).b == Act(l.b, act);
      if NoRepeats(l.b) {
        StepRepeatsExactly(l.b, l.ab, act);
      } else if NoRepeats(Act(l.b, act)) {
        RepeatsStay(l.b, l.ab, act);
      }
    }
  }

  lemma NoRepeatStepKeeps(l: Link, l': Link)
    requires Inv(l) && NoRepeats(l.b) && NoRepeatStep(l, l')
    ensures Inv(l') && NoRepeats(l'.b)
  {
    var side, act :| CanApply(l, side, act) && l' == Apply(l, side, act) && !(side == B && BuffersAgain(l.b, act));
    StepKeepsRepeats(l, side, act);
    StepInv(l, side, act);
  }

  ghost predicate Clean(l: Link) {
    Inv(l) && NoRepeats(l.b)
  }

  lemma WithoutRepeats(l: Link)
    requires Runs.Reachable(Init, NoRepeatStep, l)
    ensures NoRepeats(l.b)
  {
    forall s | Init(s) ensures Clean(s) {
      InitInv(s);
    }
    forall s, t | Clean(s) && NoRepeatStep(s, t) ensures Clean(t) {
      NoRepeatStepKeeps(s, t);
    }
    Runs.InvariantHolds(Init, NoRepeatStep, Clean, l);
  }

  ghost predicate Traced(l: Link) {
    Inv(l) && (NoRepeats(l.b) ==> Runs.Reachable(Init, NoRepeatStep, l))
  }

  lemma TracedStep(l: Link, l': Link)
    requires Traced(l) && Step(l, l')
    ensures Traced(l')
  {
    StepKeeps(l, l');
    var side, act :| CanApply(l, side, act) && l' == Apply(l, side, act);
    StepKeepsRepeats(l, side, act);
    if NoRepeats(l'.b) {
      assert NoRepeatStep(l, l');
      Runs.ReachableNext(Init, NoRepeatStep, l, l');
    }
  }

  /** In every run, nothing has been or is about to be processed twice if and only if no step of the run buffered a
      number again after it had been processed. */
  lemma AtMostOnceExactly(l: Link)
    requires Reachable(l)
    ensures NoRepeats(l.b) <==> Runs.Reachable(Init, NoRepeatStep, l)
  {
    forall s | Init(s) ensures Traced(s) {
      InitInv(s);
      Runs.ReachesSelf(NoRepeatStep, s);
    }
    forall s, t | Traced(s) && Step(s, t) ensures Traced(t) {
      TracedStep(s, t);
    }
    Runs.InvariantHolds(Init, Step, Traced, l);
    if Runs.Reachable(Init, NoRepeatStep, l) {
      WithoutRepeats(l);
    }
  }

  /** As long as numbers are not reused, no repetition means that the processed packets are different queued ones. */
  lemma ProcessedOnceMeans(l: Link, i: nat, j: nat)
    requires Reachable(l) && |l.a.queued| <= TWO_TO_THE_32 && NoRepeats(l.b) && i < j < |l.b.processed|
    ensures var p, q := l.b.processed[i], l.b.processed[j];
      && p.header.packetNum < |l.a.queued| && p.body == l.a.queued[p.header.packetNum]
      && q.header.packetNum < |l.a.queued| && q.body == l.a.queued[q.header.packetNum]
      && p.header.packetNum != q.header.packetNum
  {
    var p, q := l.b.processed[i], l.b.processed[j];
    ArqTheorems.NothingInvented(l, p);
    ArqTheorems.NothingInvented(l, q);
    ArqTheorems.NumberIsPosition(l.a, p.header.packetNum, p.body);
    ArqTheorems.NumberIsPosition(l.a, q.header.packetNum, q.body);
  }

  ghost predicate Twice(y: Endpoint) {
    exists i, j | 0 <= i < j < |y.processed| :: y.processed[i].header.packetNum == y.processed[j].header.packetNum
  }

  lemma ProcessAgain(y: Endpoint, wire: set<Pckt>, num: u32)
    requires ReceiverOk(y, wire) && num in y.receiver.incoming && Processed(y, num)
    ensures Twice(Act(y, Process(num)))
  {
    var y', k := Act(y, Process(num)), |y.processed|;
    var p :| p in y.processed && p.header.packetNum == num;
    var i :| 0 <= i < k && y.processed[i] == p;
    assert y'.processed[i] == p && y'.processed[k] == y.receiver.incoming[num];
  }

  lemma ReceiverInOrder(l: Link)
    requires Reachable(l)
    ensures ReceiverOk(l.b, l.ab)
  {
    ReachableInv(l);
  }

  lemma ProcessNext(l: Link, num: u32) returns (l': Link)
    requires num in l.b.receiver.incoming
    ensures Runs.Reaches(Step, l, l') && l'.b == Act(l.b, Process(num))
  {
    l' := Apply(l, B, Process(num));
    assert CanApply(l, B, Process(num));
    Runs.ReachesOne(Step, l, l');
  }

  /** And once a number waits again, it can be processed again in the very next step. */
  lemma RepeatFollows(l: Link) returns (l': Link)
    requires Reachable(l) && !NoRepeats(l.b)
    ensures Runs.Reaches(Step, l, l') && Twice(l'.b)
  {
    if Twice(l.b) {
      Runs.ReachesSelf(Step, l);
      l' := l;
    } else {
      var num :| num in l.b.receiver.incoming && Processed(l.b, num);
      ReceiverInOrder(l);
      ProcessAgain(l.b, l.ab, num);
      l' := ProcessNext(l, num);
    }
  }

  // ----- a run with a repetition -----

  /** The receiver takes packet 0 from the wire, buffers it and processes it. */
  lemma TakeIn(l: Link, p: Pckt) returns (l': Link)
    requires Reachable(l) && p in l.ab && p == DataPckt(1, 0, p.body)
    requires l.b.pending == multiset{} && l.b.receiver.incoming == map[]
    ensures Reachable(l') && l'.a == l.a && l'.ab == l.ab
    ensures l'.b.pending == multiset{} && l'.b.receiver.incoming == map[] && l'.b.processed == l.b.processed + [p]
  {
    var l1 := Apply(l, B, ReceiveData(p, false));
    var l2 := Apply(l1, B, Buffer(p));
    l' := Apply(l2, B, Process(0));
    assert CanApply(l, B, ReceiveData(p, false)) && CanApply(l1, B, Buffer(p)) && CanApply(l2, B, Process(0));
    Runs.ReachesOne(Step, l, l1);
    Runs.ReachesMore(Step, l, l1, l2);
    Runs.ReachesMore(Step, l, l2, l');
    Runs.ReachableMore(Init, Step, l, l');
  }

  /** Any message that fits can be queued once and processed twice. */
  lemma ProcessedTwice(m: Msg) returns (l: Link)
    requires Fits(m)
    ensures Reachable(l) && l.a.queued == [Encode(m)]
    ensures l.b.processed == [DataPckt(1, 0, Encode(m)), DataPckt(1, 0, Encode(m))]
    ensures !NoRepeats(l.b)
  {
    var l0 := Link(NewEndpoint(1), NewEndpoint(2), {}, {});
    assert Init(l0);
    var l1 := Apply(l0, A, Queue(Encode(m)));
    assert CanApply(l0, A, Queue(Encode(m)));
    var l2 := Apply(l1, A, SendWindow({0}));
    assert Slide(l1.a.sender) == l1.a.sender;
    assert CanApply(l1, A, SendWindow({0}));
    Runs.ReachesOne(Step, l0, l1);
    Runs.ReachesMore(Step, l0, l1, l2);
    var p := DataPckt(1, 0, Encode(m));
    assert l2.a.sender.outgoing[0].pckt == p && p in l2.ab;
    var l3 := TakeIn(l2, p);
    l := TakeIn(l3, p);
    assert l.b.processed[0] == l.b.processed[1];
  }
}
