/** The server's loop over the byte vector as it is written, one iteration at a time, and the
    run of the protocol it performs. */
module NotificationServer {
  import opened Pipeline
  import opened Words
  import opened WordScan
  import opened Notification
  import opened NotificationLimits

  // ---- one iteration, as a function of the queue it finds ----

  function StepOf(ph: Phase): QueueStep
    requires !ph.Out?
  {
    match ph
    case Found => Clear
    case Cleared => TestStash
    case Polling => Poll
    case Serving(_) => Repost
    case Sending => Send
    case Looking(_) => Look
  }

  function Rank(ph: Phase): nat {
    match ph
    case Out => 0
    case Looking(again) => if again then 1 else 2
    case Sending => 3
    case Serving(_) => 4
    case Polling => 5
    case Cleared => 6
    case Found => 7
  }

  /** The queue when the iteration is over. A poll of an empty queue would never end. */
  ghost function Finish(x: Queue, ph: Phase, marks: iset<nat>): Queue
    decreases Rank(ph), |x.cq|
  {
    if ph.Out? || (ph.Polling? && x.cq == []) then x
    else
      var (y, qh) := QueueAfter(x, ph, StepOf(ph), marks);
      Finish(y, qh, marks)
  }

  /** A request is waiting for the poll. */
  ghost predicate Waiting(x: Queue, ph: Phase) {
    match ph
    case Found => StashValid(x) || Requests(x.cq) != []
    case Cleared => StashValid(x) || Requests(x.cq) != []
    case Polling => Requests(x.cq) != []
    case _ => true
  }

  lemma WaitingStep(x: Queue, ph: Phase, marks: iset<nat>)
    requires !ph.Out? && Waiting(x, ph)
    ensures var (y, qh) := QueueAfter(x, ph, StepOf(ph), marks); Waiting(y, qh)
  {
  }

  lemma Then(blocks: seq<set<nat>>, s: State, a: Action, marks: iset<nat>)
    requires Reachable(blocks, s, marks) && Enabled(s, a)
    ensures Reachable(blocks, Apply(s, a, marks), marks)
  {
    hide Enabled, Apply;
    var steps :| Legal(Start(blocks), steps, marks) && After(Start(blocks), steps, marks) == s;
    OneMore(Start(blocks), steps, a, marks);
  }

  /** The state when the iteration at `s.connIndex` is over. */
  ghost function Finished(s: State, marks: iset<nat>): State
    requires s.connIndex < |s.queues|
  {
    State(s.queues[s.connIndex := Finish(s.queues[s.connIndex], s.phase, marks)], s.connIndex, Out)
  }

  /** The iteration is a run of the protocol. */
  lemma {:induction false} FinishIsARun(blocks: seq<set<nat>>, s: State, marks: iset<nat>)
    requires Reachable(blocks, s, marks) && s.connIndex < |s.queues|
    requires Waiting(s.queues[s.connIndex], s.phase)
    ensures Reachable(blocks, Finished(s, marks), marks)
    decreases Rank(s.phase), |s.queues[s.connIndex].cq|
  {
    hide Reachable;
    var q, ph := s.connIndex, s.phase;
    if ph.Out? {
      assert Finished(s, marks) == s;
    } else {
      var x := s.queues[q];
      var a := StepOf(ph);
      var (y, qh) := QueueAfter(x, ph, a, marks);
      WaitingStep(x, ph, marks);
      StepRanks(x, ph, marks);
      hide QueueAfter, Waiting;
      Then(blocks, s, Do(q, a), marks);
      var t := State(s.queues[q := y], q, qh);
      assert Apply(s, Do(q, a), marks) == t;
      FinishIsARun(blocks, t, marks);
      assert Finished(t, marks) == Finished(s, marks);
    }
  }

  /** The request that an iteration serves: the one stashed, or the oldest in the queue. */
  ghost function NextRequest(x: Queue): (wc: Wc)
    requires Waiting(x, Found)
  {
    if StashValid(x) then RecvWc(x.stashBuf, x.stashSrc) else Requests(x.cq)[0]
  }

  lemma {:induction false} OldestIsReceive(cq: seq<Wc>)
    requires Requests(cq) != []
    ensures Requests(cq)[0].RecvWc?
  {
    if cq[0].SendWc? {
      OldestIsReceive(cq[1..]);
    }
  }

  /** What an iteration has done once its request is taken. */
  ghost predicate Answers(x: Queue, y: Queue, wc: Wc) {
    && wc.RecvWc? && y.served == x.served + [wc] && y.taken == x.taken + 1
    && y.posted == x.posted + multiset{wc.buf} && y.arrived == x.arrived
  }

  lemma RestOfIteration(x: Queue, buf: nat, marks: iset<nat>)
    ensures var y := Finish(x, Serving(buf), marks);
            && y.served == x.served && y.taken == x.taken && y.arrived == x.arrived
            && y.posted == x.posted + multiset{buf}
  {
    var (x1, p1) := QueueAfter(x, Serving(buf), Repost, marks);
    var (x2, p2) := QueueAfter(x1, p1, Send, marks);
    var (x3, p3) := QueueAfter(x2, p2, Look, marks);
    hide Completion;
    assert Finish(x, Serving(buf), marks) == Finish(x1, p1, marks) == Finish(x2, p2, marks) == Finish(x3, p3, marks);
    if p3 == Looking(true) {
      var (x4, p4) := QueueAfter(x3, p3, Look, marks);
      assert Finish(x3, p3, marks) == Finish(x4, p4, marks);
    }
  }

  lemma {:induction false} PollServes(x: Queue, marks: iset<nat>)
    requires Requests(x.cq) != []
    ensures Answers(x, Finish(x, Polling, marks), Requests(x.cq)[0])
    decreases |x.cq|
  {
    StepRanks(x, Polling, marks);
    var (y, qh) := QueueAfter(x, Polling, Poll, marks);
    hide Finish;
    if x.cq[0].SendWc? {
      PollServes(y, marks);
    } else {
      RestOfIteration(y, x.cq[0].buf, marks);
    }
  }

  /** An iteration serves exactly that request and reposts its buffer. */
  lemma FinishServes(x: Queue, marks: iset<nat>)
    requires Waiting(x, Found)
    ensures Answers(x, Finish(x, Found, marks), NextRequest(x))
  {
    var (x1, p1) := QueueAfter(x, Found, Clear, marks);
    StepRanks(x, Found, marks);
    WaitingStep(x, Found, marks);
    StepRanks(x1, p1, marks);
    var (x2, p2) := QueueAfter(x1, p1, TestStash, marks);
    hide Finish;
    if StashValid(x) {
      RestOfIteration(x2, x.stashBuf, marks);
    } else {
      PollServes(x2, marks);
    }
  }

  lemma StepRanks(x: Queue, ph: Phase, marks: iset<nat>)
    requires !ph.Out? && Waiting(x, ph)
    ensures var (y, qh) := QueueAfter(x, ph, StepOf(ph), marks);
            && (Rank(qh) < Rank(ph) || (Rank(qh) == Rank(ph) && |y.cq| < |x.cq|))
            && Finish(x, ph, marks) == Finish(y, qh, marks)
  {
  }

  /** Between iterations a queue whose byte is set has a request waiting, and serving it is a run
      of the protocol. What is proved of every run therefore holds for the loop as it is
      written, with any arrivals between its iterations. */
  lemma IterationIsARun(blocks: seq<set<nat>>, s: State, q: nat, marks: iset<nat>, gap: nat)
    requires Spaced(marks, gap) && SmallBlocks(blocks, gap)
    requires Reachable(blocks, s, marks) && s.phase.Out? && q < |s.queues| && s.queues[q].byte
    ensures Waiting(s.queues[q], Found)
    ensures Reachable(blocks, Finished(s.(connIndex := q, phase := Found), marks), marks)
  {
    NotificationIsSound(blocks, s, marks, gap);
    assert SoundQueue(s.queues[q], PhaseOf(s, q));
    SomeRequest(s.queues[q].cq);
    hide Reachable, Sound, SoundQueue, Requests;
    Then(blocks, s, Do(q, Scan), marks);
    var t := s.(connIndex := q, phase := Found);
    assert s.queues[q := s.queues[q]] == s.queues;
    assert Apply(s, Do(q, Scan), marks) == t;
    FinishIsARun(blocks, t, marks);
  }

  /** A response: from which queue pair, from the buffer of which request, to whom. */
  datatype Reply = Reply(queue: nat, buf: nat, dest: nat)

  class NotificationServer {
    const numQueues: nat
    const bufThreadOffset: nat
    const signalInterval: nat
    const resBuf: array<Byte>
    const processBufB4Polling: array<nat>
    const processBufB4PollingSrcQP: array<nat>
    var posted: seq<multiset<nat>>
    var cqs: seq<seq<Wc>>
    var taken: seq<nat>                // `rcnt` of each connection, before it wraps
    var connIndex: nat
    var replies: seq<Reply>
    ghost var arrived: seq<seq<Wc>>
    ghost var served: seq<seq<Wc>>

    ghost predicate Valid()
      reads this
    {
      && numQueues % 8 == 0 && connIndex < numQueues
      && bufThreadOffset + numQueues <= resBuf.Length && 0 < signalInterval < COUNTER_RANGE
      && processBufB4Polling != processBufB4PollingSrcQP
      && processBufB4Polling.Length == processBufB4PollingSrcQP.Length == numQueues
      && |posted| == |cqs| == |taken| == |arrived| == |served| == numQueues
    }

    ghost function QueueView(q: nat): Queue
      requires Valid() && q < numQueues
      reads this, resBuf, processBufB4Polling, processBufB4PollingSrcQP
    {
      Queue(posted[q], cqs[q], resBuf[bufThreadOffset + q] != 0, processBufB4Polling[q],
            processBufB4PollingSrcQP[q], taken[q], arrived[q], served[q])
    }

    ghost function Queues(): (qs: seq<Queue>)
      requires Valid()
      reads this, resBuf, processBufB4Polling, processBufB4PollingSrcQP
      ensures |qs| == numQueues
    {
      seq(numQueues, q requires Valid() && 0 <= q < numQueues
                       reads this, resBuf, processBufB4Polling, processBufB4PollingSrcQP => QueueView(q))
    }

    /** The byte of the queue found is cleared. */
    method ClearByte()
      requires Valid()
      modifies resBuf
      ensures Queues() == old(Queues())[connIndex := old(QueueView(connIndex)).(byte := false)]
    {
      resBuf[bufThreadOffset + connIndex] := 0;
    }

    /** Takes what the stash holds, if it holds anything. */
    method TakeStash() returns (received: bool, bufID: nat, srcQP: nat)
      requires Valid()
      modifies this`taken, this`served
      ensures Valid()
      ensures var x := old(QueueView(connIndex));
              && received == StashValid(x)
              && (received ==> bufID == x.stashBuf && srcQP == x.stashSrc)
              && Queues() == old(Queues())[connIndex := if received then Take(x, RecvWc(bufID, srcQP)) else x]
    {
      received := processBufB4Polling[connIndex] != 0 && processBufB4PollingSrcQP[connIndex] != 0;
      bufID, srcQP := processBufB4Polling[connIndex], processBufB4PollingSrcQP[connIndex];
      if received {
        Count(RecvWc(bufID, srcQP));
      }
    }

    /** `conn->rcnt++` */
    method Count(ghost wc: Wc)
      requires Valid()
      modifies this`taken, this`served
      ensures Valid()
      ensures Queues() == old(Queues())[connIndex := Take(old(QueueView(connIndex)), wc)]
    {
      taken := taken[connIndex := taken[connIndex] + 1];
      served := served[connIndex := served[connIndex] + [wc]];
    }

    method PollCq() returns (ne: nat, wc: Wc)
      requires Valid()
      modifies this`cqs
      ensures Valid()
      ensures var x := old(QueueView(connIndex));
              if x.cq == [] then ne == 0 && Queues() == old(Queues())
              else ne == 1 && wc == x.cq[0] && Queues() == old(Queues())[connIndex := x.(cq := x.cq[1..])]
    {
      if |cqs[connIndex]| == 0 {
        return 0, SendWc(0);
      }
      ne, wc := 1, cqs[connIndex][0];
      cqs := cqs[connIndex := cqs[connIndex][1..]];
    }

    /** Polls one completion; a request is counted. */
    method PollOne() returns (received: bool, bufID: nat, srcQP: nat)
      requires Valid() && Requests(cqs[connIndex]) != []
      modifies this`cqs, this`taken, this`served
      ensures Valid() && Queues() == old(Queues())[connIndex := QueueView(connIndex)]
      ensures received ==> RecvWc(bufID, srcQP) == Requests(old(cqs[connIndex]))[0]
      ensures !received ==> Requests(cqs[connIndex]) == Requests(old(cqs[connIndex]))
                            && |cqs[connIndex]| < |old(cqs[connIndex])|
      ensures Finish(QueueView(connIndex), if received then Serving(bufID) else Polling, Marks(signalInterval))
           == Finish(old(QueueView(connIndex)), Polling, Marks(signalInterval))
    {
      hide Queues, Marks;
      received, bufID, srcQP := false, 0, 0;
      var ne, wc := PollCq();
      QueueAt();
      match wc {
        case SendWc(_) =>
        case RecvWc(a, src) =>
          Count(wc);
          QueueAt();
          bufID, srcQP, received := a, src, true;
      }
    }

    /** Polls until a request comes. */
    method PollForRequest() returns (bufID: nat, srcQP: nat)
      requires Valid() && Requests(cqs[connIndex]) != []
      modifies this`cqs, this`taken, this`served
      ensures Valid() && RecvWc(bufID, srcQP) == Requests(old(cqs[connIndex]))[0]
      ensures Queues() == old(Queues())[connIndex := QueueView(connIndex)]
      ensures Finish(QueueView(connIndex), Serving(bufID), Marks(signalInterval))
           == Finish(old(QueueView(connIndex)), Polling, Marks(signalInterval))
    {
      ghost var marks := Marks(signalInterval);
      ghost var before, x0 := Queues(), QueueView(connIndex);
      QueueAt();
      assert x0.cq == cqs[connIndex] && before == before[connIndex := x0];
      hide Queues, QueueView, Marks, Finish, Requests;
      var received := false;
      bufID, srcQP := 0, 0;
      while !received
        invariant Valid()
        invariant Queues() == before[connIndex := QueueView(connIndex)]
        invariant if received then RecvWc(bufID, srcQP) == Requests(x0.cq)[0]
                  else Requests(cqs[connIndex]) == Requests(x0.cq)
        invariant Finish(QueueView(connIndex), if received then Serving(bufID) else Polling, marks)
               == Finish(x0, Polling, marks)
        decreases !received, |cqs[connIndex]|
      {
        received, bufID, srcQP := PollOne();
      }
    }

    lemma QueueAt()
      requires Valid()
      ensures Queues()[connIndex] == QueueView(connIndex)
    {
    }

    method PostRecv(bufID: nat)
      requires Valid()
      modifies this`posted
      ensures Valid()
      ensures var x := old(QueueView(connIndex));
              Queues() == old(Queues())[connIndex := x.(posted := x.posted + multiset{bufID})]
    {
      posted := posted[connIndex := posted[connIndex] + multiset{bufID}];
    }

    method PostSend(bufID: nat, srcQP: nat, signal: bool)
      requires Valid() && (signal <==> taken[connIndex] in Marks(signalInterval))
      modifies this`cqs, this`replies
      ensures Valid() && replies == old(replies) + [Reply(connIndex, bufID, srcQP)]
      ensures var x := old(QueueView(connIndex));
              Queues() == old(Queues())[connIndex := x.(cq := x.cq + Completion(x.taken, Marks(signalInterval)))]
    {
      replies := replies + [Reply(connIndex, bufID, srcQP)];
      if signal {
        cqs := cqs[connIndex := cqs[connIndex] + [SendWc(taken[connIndex])]];
      } else {
        assert cqs[connIndex] + [] == cqs[connIndex];
      }
    }

    /** Remembers a request for the next time, or nothing. */
    method Stash(found: bool, a: nat, srcQP: nat)
      requires Valid()
      modifies resBuf, processBufB4Polling, processBufB4PollingSrcQP
      ensures var x := old(QueueView(connIndex));
              Queues() == old(Queues())[connIndex :=
                if found then x.(byte := true, stashBuf := a, stashSrc := srcQP)
                else x.(stashBuf := 0, stashSrc := 0)]
    {
      if found {
        resBuf[bufThreadOffset + connIndex] := 0xFF;
      }
      processBufB4Polling[connIndex] := if found then a else 0;
      processBufB4PollingSrcQP[connIndex] := if found then srcQP else 0;
    }

    /** One try of the look-ahead. */
    method LookOnce(ghost again: bool) returns (done: bool)
      requires Valid()
      modifies this`cqs, resBuf, processBufB4Polling, processBufB4PollingSrcQP
      ensures Valid()
      ensures var (y, ph) := QueueAfter(old(QueueView(connIndex)), Looking(again), Look, Marks(signalInterval));
              && ph == (if done || again then Out else Looking(true))
              && Queues() == old(Queues())[connIndex := y]
    {
      ghost var before, x := Queues(), QueueView(connIndex);
      hide Queues, Marks;
      QueueAt();
      var ne, wc := PollCq();
      QueueAt();
      if ne == 0 {
        Stash(false, 0, 0);
        done := true;
      } else {
        match wc {
          case SendWc(_) => done := false;
          case RecvWc(a, src) =>
            Stash(true, a, src);
            done := true;
        }
      }
      ghost var y := QueueAfter(x, Looking(again), Look, Marks(signalInterval)).0;
      assert Queues() == before[connIndex := y];
    }

    /** The two tries after a response. */
    method LookAhead()
      requires Valid()
      modifies this`cqs, resBuf, processBufB4Polling, processBufB4PollingSrcQP
      ensures Valid()
      ensures Queues() == old(Queues())[connIndex :=
                Finish(old(QueueView(connIndex)), Looking(false), Marks(signalInterval))]
    {
      hide Queues, Marks;
      ghost var marks, x := Marks(signalInterval), QueueView(connIndex);
      ghost var before := Queues();
      var foundRecv := LookOnce(false);
      QueueAt();
      ghost var y := QueueView(connIndex);
      assert Finish(x, Looking(false), marks) == Finish(y, if foundRecv then Out else Looking(true), marks);
      if !foundRecv {
        var done := LookOnce(true);
        QueueAt();
        assert Finish(y, Looking(true), marks) == Finish(QueueView(connIndex), Out, marks);
      }
      assert Queues() == before[connIndex := QueueView(connIndex)];
    }

    /** Reposts the buffer, answers, and looks ahead. */
    method Answer(bufID: nat, srcQP: nat)
      requires Valid()
      modifies this`posted, this`cqs, this`replies, resBuf, processBufB4Polling, processBufB4PollingSrcQP
      ensures Valid() && replies == old(replies) + [Reply(connIndex, bufID, srcQP)]
      ensures Queues() == old(Queues())[connIndex :=
                Finish(old(QueueView(connIndex)), Serving(bufID), Marks(signalInterval))]
    {
      hide Queues;
      ghost var before, x := Queues(), QueueView(connIndex);
      QueueAt();
      PostRecv(bufID);
      QueueAt();
      ghost var y := QueueView(connIndex);
      SignalIsMark(taken[connIndex]);
      hide Marks;
      PostSend(bufID, srcQP, taken[connIndex] % COUNTER_RANGE % signalInterval == 0);
      QueueAt();
      AnswerSteps(x, y, QueueView(connIndex), bufID);
      hide Finish;
      LookAhead();
    }

    lemma SignalIsMark(n: nat)
      requires signalInterval > 0
      ensures n in Marks(signalInterval) <==> n % COUNTER_RANGE % signalInterval == 0
    {
    }

    lemma AnswerSteps(x: Queue, y: Queue, z: Queue, bufID: nat)
      requires signalInterval > 0 && y == x.(posted := x.posted + multiset{bufID})
      requires z == y.(cq := y.cq + Completion(y.taken, Marks(signalInterval)))
      ensures Finish(x, Serving(bufID), Marks(signalInterval)) == Finish(z, Looking(false), Marks(signalInterval))
    {
      hide Marks;
      assert Finish(x, Serving(bufID), Marks(signalInterval)) == Finish(y, Sending, Marks(signalInterval));
    }

    /** Serves the queue whose byte was found. */
    method ServeQueue()
      requires Valid() && Waiting(QueueView(connIndex), Found)
      modifies this`posted, this`cqs, this`taken, this`served, this`replies
      modifies resBuf, processBufB4Polling, processBufB4PollingSrcQP
      ensures Valid()
      ensures Queues() == old(Queues())[connIndex :=
                Finish(old(QueueView(connIndex)), Found, Marks(signalInterval))]
      ensures var wc := NextRequest(old(QueueView(connIndex)));
              wc.RecvWc? && replies == old(replies) + [Reply(connIndex, wc.buf, wc.src)]
    {
      hide Queues, Marks;
      QueueAt();
      ClearByte();
      QueueAt();
      var received, bufID, srcQP := TakeStash();
      QueueAt();
      if !received {
        bufID, srcQP := PollForRequest();
        QueueAt();
      }
      Answer(bufID, srcQP);
    }

    /** One iteration of the loop: the first queue whose byte is set, if there is one, is served
        as the protocol says, and the others are left alone. */
    method Iterate() returns (foundWork: bool)
      requires Valid() && forall q | 0 <= q < numQueues :: QueueView(q).byte ==> Waiting(QueueView(q), Found)
      modifies this`posted, this`cqs, this`taken, this`served, this`replies, this`connIndex
      modifies resBuf, processBufB4Polling, processBufB4PollingSrcQP
      ensures Valid()
      ensures foundWork <==> exists q :: 0 <= q < numQueues && old(Queues())[q].byte
      ensures !foundWork ==> Queues() == old(Queues()) && replies == old(replies)
      ensures foundWork ==>
                && old(Queues())[connIndex].byte
                && (forall q | 0 <= q < connIndex :: !old(Queues())[q].byte)
                && Queues() == old(Queues())[connIndex :=
                     Finish(old(Queues())[connIndex], Found, Marks(signalInterval))]
                && Waiting(old(Queues())[connIndex], Found)
                && var wc := NextRequest(old(Queues())[connIndex]);
                   && Answers(old(Queues())[connIndex], Queues()[connIndex], wc)
                   && replies == old(replies) + [Reply(connIndex, wc.buf, wc.src)]
    {
      hide Marks, Finish;
      WholeBytes();
      ghost var bytes := resBuf[bufThreadOffset..bufThreadOffset + numQueues];
      var at;
      foundWork, at := FindByLzcnt(resBuf, bufThreadOffset, numQueues);
      assert forall q | 0 <= q < numQueues :: Queues()[q].byte <==> bytes[q] != 0;
      if foundWork {
        connIndex := at;
        QueueAt();
        FinishServes(QueueView(connIndex), Marks(signalInterval));
        hide Answers, Waiting, NextRequest;
        ServeQueue();
      }
    }

    lemma WholeBytes()
      requires Valid()
      ensures RoundUp(numQueues, 8) == numQueues
    {
    }
  }
}
