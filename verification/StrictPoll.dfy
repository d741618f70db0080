/** Strict polling: no lists, just the order in which a thread polls its queue pairs. It starts
    over from its first queue after each request and moves on after each empty poll. */
module StrictPoll {
  import opened Arithmetic
  import opened Pipeline

  /** The queue polled after `offset` came up empty, for thread `t` of `threads` (scale-out). */
  function Next(t: nat, threads: nat, queues: nat, offset: nat): nat
    requires threads > 0
  {
    if offset > threads * (queues / threads - 1) - 1 then t else offset + threads
  }

  /** The same for the scale-up layout, in which every thread polls every queue. */
  function NextUp(queues: nat, offset: nat): nat {
    if offset == queues - 1 then 0 else offset + 1
  }

  lemma ScaleUpIsOneThread(queues: nat, offset: nat)
    requires offset < queues
    ensures NextUp(queues, offset) == Next(0, 1, queues, offset)
  {
  }

  /** The `k`-th of a thread's queues. */
  function Nth(t: nat, threads: nat, k: nat): nat {
    t + k * threads
  }

  lemma NthBelow(t: nat, threads: nat, queues: nat, k: nat)
    requires t < threads && k < queues / threads
    ensures Nth(t, threads, k) < queues
  {
    MulMono(k, queues / threads, threads);
    assert queues == (queues / threads) * threads + queues % threads;
  }

  lemma NextIs(t: nat, threads: nat, queues: nat, k: nat)
    requires t < threads && k < queues / threads
    ensures Next(t, threads, queues, Nth(t, threads, k))
         == Nth(t, threads, if k + 1 == queues / threads then 0 else k + 1)
  {
    var last: nat := queues / threads - 1;
    assert threads * last == last * threads;
    MulMono(k, last, threads);
    MulMono(last, k, threads);
    assert (k + 1) * threads == k * threads + threads;
  }

  /** The queue polled `n` empty polls after the first. */
  function Visit(t: nat, threads: nat, queues: nat, n: nat): nat
    requires threads > 0 && queues > 0
  {
    if n == 0 then t % queues else Next(t, threads, queues, Visit(t, threads, queues, n - 1))
  }

  /** The `n`-th poll of an idle scan goes to the thread's queues in increasing order, wrapping
      round after the last. With more threads than queues a thread polls the queue of its number
      only, whether there is one or not, after a first poll within bounds. */
  lemma {:induction false} VisitIs(t: nat, threads: nat, queues: nat, n: nat) returns (k: nat)
    requires t < threads && queues > 0
    ensures threads <= queues ==> queues / threads > 0 && k == n % (queues / threads)
    ensures threads <= queues ==> Visit(t, threads, queues, n) == Nth(t, threads, k)
    ensures threads > queues ==> Visit(t, threads, queues, n) == if n == 0 then t % queues else t
  {
    k := 0;
    if threads > queues {
      DivUnique(queues, threads, 0, queues);
    } else if n == 0 {
      AtLeastOne(queues, threads);
      DivUnique(0, queues / threads, 0, 0);
      DivUnique(t, queues, 0, t);
    } else {
      hide Nth, Next;
      AtLeastOne(queues, threads);
      var j := VisitIs(t, threads, queues, n - 1);
      NextIs(t, threads, queues, j);
      RemainderSucc(n - 1, queues / threads);
      k := if j + 1 == queues / threads then 0 else j + 1;
    }
  }

  lemma AtLeastOne(queues: nat, threads: nat)
    requires 0 < threads <= queues
    ensures queues / threads >= 1
  {
    assert queues == (queues / threads) * threads + queues % threads;
  }

  ghost predicate Polls(t: nat, threads: nat, queues: nat, q: nat)
    requires threads > 0 && queues > 0
  {
    exists n: nat :: Visit(t, threads, queues, n) == q
  }

  lemma NthIs(t: nat, threads: nat, k: nat)
    requires t < threads
    ensures Nth(t, threads, k) % threads == t && Nth(t, threads, k) / threads == k
  {
    DivUnique(Nth(t, threads, k), threads, k, t);
  }

  lemma IsNth(threads: nat, q: nat)
    requires threads > 0
    ensures q == Nth(q % threads, threads, q / threads)
  {
    assert q == (q / threads) * threads + q % threads;
  }

  /** A thread polls the queues congruent to its number, short of an incomplete last row, or, where
      there are fewer queues than threads, the one of its number and the one it starts from. */
  lemma PollsIff(t: nat, threads: nat, queues: nat, q: nat)
    requires t < threads && queues > 0
    ensures Polls(t, threads, queues, q)
       <==> if threads <= queues then q % threads == t && q / threads < queues / threads
            else q == t || q == t % queues
  {
    if threads <= queues {
      PollsInRow(t, threads, queues, q);
    } else {
      var j := VisitIs(t, threads, queues, 0);
      j := VisitIs(t, threads, queues, 1);
      if n: nat :| Visit(t, threads, queues, n) == q {
        j := VisitIs(t, threads, queues, n);
      }
    }
  }

  lemma PollsInRow(t: nat, threads: nat, queues: nat, q: nat)
    requires t < threads <= queues
    ensures Polls(t, threads, queues, q) <==> q % threads == t && q / threads < queues / threads
  {
    hide Nth, Visit;
    if n: nat :| Visit(t, threads, queues, n) == q {
      var k := VisitIs(t, threads, queues, n);
      NthIs(t, threads, k);
    }
    var n: nat := q / threads;
    if q % threads == t && n < queues / threads {
      var k := VisitIs(t, threads, queues, n);
      DivUnique(n, queues / threads, 0, n);
      IsNth(threads, q);
      assert Visit(t, threads, queues, n) == q;
    }
  }

  ghost predicate Shared(threads: nat, queues: nat, q: nat)
    requires threads > 0 && queues > 0
  {
    exists t :: 0 <= t < threads && Polls(t, threads, queues, q)
  }

  /** No two threads poll the same queue. */
  ghost predicate Disjoint(threads: nat, queues: nat)
    requires threads > 0 && queues > 0
  {
    forall q, t, u | 0 <= t < threads && 0 <= u < threads && q >= 0
                     && Polls(t, threads, queues, q) && Polls(u, threads, queues, q) :: t == u
  }

  /** The threads poll all queues between them exactly when their number divides the number of
      queues or exceeds it; otherwise some queue is never polled. */
  lemma AllPolledIff(threads: nat, queues: nat)
    requires threads > 0 && queues > 0
    ensures (forall q | 0 <= q < queues :: Shared(threads, queues, q))
       <==> queues % threads == 0 || threads > queues
  {
    hide Polls;
    assert queues == (queues / threads) * threads + queues % threads;
    if threads > queues {
      forall q | 0 <= q < queues ensures Shared(threads, queues, q) {
        PollsIff(q, threads, queues, q);
      }
    } else if queues % threads == 0 {
      forall q | 0 <= q < queues ensures Shared(threads, queues, q) {
        assert q == (q / threads) * threads + q % threads;
        MulMono(queues / threads, q / threads, threads);
        PollsIff(q % threads, threads, queues, q);
      }
    } else {
      var q := (queues / threads) * threads;
      DivUnique(q, threads, queues / threads, 0);
      forall t | 0 <= t < threads ensures !Polls(t, threads, queues, q) {
        PollsIff(t, threads, queues, q);
      }
      assert !Shared(threads, queues, q);
    }
  }

  /** Each queue goes to one thread, and a thread's offset names a queue, exactly when there are no
      more threads than queues. */
  lemma DisjointIff(threads: nat, queues: nat)
    requires threads > 0 && queues > 0
    ensures Disjoint(threads, queues) <==> threads <= queues
    ensures (forall t, q: nat | 0 <= t < threads && Polls(t, threads, queues, q) :: q < queues) <==> threads <= queues
  {
    hide Polls;
    if threads <= queues {
      forall t, q: nat | 0 <= t < threads && Polls(t, threads, queues, q) ensures q < queues && t == q % threads {
        PollsAQueue(t, threads, queues, q);
      }
    } else {
      PollsIff(0, threads, queues, 0);
      PollsIff(queues, threads, queues, 0);
      PollsIff(queues, threads, queues, queues);
      DivUnique(queues, queues, 1, 0);
    }
  }

  lemma PollsAQueue(t: nat, threads: nat, queues: nat, q: nat)
    requires t < threads <= queues && Polls(t, threads, queues, q)
    ensures q < queues && t == q % threads
  {
    hide Polls;
    PollsInRow(t, threads, queues, q);
    IsNth(threads, q);
    NthBelow(t, threads, queues, q / threads);
  }

  /** The threads share the queues out among them, each to one thread, exactly when their number
      divides the number of queues. */
  lemma PartitionIff(threads: nat, queues: nat)
    requires threads > 0 && queues > 0
    ensures Disjoint(threads, queues) && (forall q | 0 <= q < queues :: Shared(threads, queues, q))
       <==> queues % threads == 0
  {
    hide Disjoint, Shared;
    AllPolledIff(threads, queues);
    DisjointIff(threads, queues);
    if threads > queues {
      DivUnique(queues, threads, 0, queues);
    }
  }

  /** The first receive completion of a queue. */
  function FirstReceive(cq: seq<Wc>): (wc: Wc)
    requires Receives(cq) > 0
    ensures wc.RecvWc?
  {
    if cq[0].RecvWc? then cq[0] else FirstReceive(cq[1..])
  }

  function AfterReceive(cq: seq<Wc>): seq<Wc>
    requires Receives(cq) > 0
  {
    if cq[0].RecvWc? then cq[1..] else AfterReceive(cq[1..])
  }

  /** Send completions stand before the first receive of a queue, and nothing else. */
  lemma {:induction false} FirstReceiveSplits(cq: seq<Wc>) returns (k: nat)
    requires Receives(cq) > 0
    ensures SplitAt(cq, k, FirstReceive(cq), AfterReceive(cq))
  {
    if cq[0].RecvWc? {
      k := 0;
    } else {
      var j := FirstReceiveSplits(cq[1..]);
      k := j + 1;
      assert cq[k + 1..] == cq[1..][j + 1..];
    }
  }

  /** The queue is `k` send completions, a receive and the rest. */
  ghost predicate SplitAt(cq: seq<Wc>, k: nat, wc: Wc, rest: seq<Wc>) {
    && k < |cq| && cq[k] == wc && wc.RecvWc? && rest == cq[k + 1..]
    && forall i | 0 <= i < k :: cq[i].SendWc?
  }

  /** The queues with the first `j` of thread `t`'s emptied. */
  ghost function Emptied(cqs: seq<seq<Wc>>, t: nat, threads: nat, j: nat): (r: seq<seq<Wc>>)
    ensures |r| == |cqs|
  {
    if j == 0 then cqs
    else
      var r := Emptied(cqs, t, threads, j - 1);
      if Nth(t, threads, j - 1) < |cqs| then r[Nth(t, threads, j - 1) := []] else r
  }

  /** Queue `q` is among the first `j` of thread `t`'s. */
  ghost predicate Among(t: nat, threads: nat, j: nat, q: nat) {
    exists i: nat :: i < j && q == Nth(t, threads, i)
  }

  lemma {:induction false} EmptiedIs(cqs: seq<seq<Wc>>, t: nat, threads: nat, j: nat, q: nat)
    requires q < |cqs|
    ensures Emptied(cqs, t, threads, j)[q] == if Among(t, threads, j, q) then [] else cqs[q]
  {
    if j > 0 {
      hide Nth;
      EmptiedIs(cqs, t, threads, j - 1, q);
      assert Among(t, threads, j - 1, q) ==> Among(t, threads, j, q);
      assert Among(t, threads, j, q) && !Among(t, threads, j - 1, q) ==> q == Nth(t, threads, j - 1);
    }
  }

  lemma NotAmong(t: nat, threads: nat, j: nat)
    requires t < threads
    ensures !Among(t, threads, j, Nth(t, threads, j))
  {
    forall i: nat | i < j ensures Nth(t, threads, i) != Nth(t, threads, j) {
      NthIs(t, threads, i);
      NthIs(t, threads, j);
    }
  }

  class StrictPoller {
    const threadNum: nat
    const numThreads: nat
    var cqs: seq<seq<Wc>>
    var offset: nat

    ghost predicate Valid()
      reads this
    {
      && threadNum < numThreads <= |cqs| && offset < |cqs|
      && exists k :: 0 <= k < |cqs| / numThreads && offset == Nth(threadNum, numThreads, k)
    }

    constructor (threadNum: nat, numThreads: nat, cqs: seq<seq<Wc>>)
      requires threadNum < numThreads <= |cqs|
      ensures Valid() && offset == threadNum
      ensures this.threadNum == threadNum && this.numThreads == numThreads && this.cqs == cqs
    {
      this.threadNum := threadNum;
      this.numThreads := numThreads;
      this.cqs := cqs;
      offset := threadNum;
      new;
      AtLeastOne(|cqs|, numThreads);
      assert offset == Nth(threadNum, numThreads, 0);
    }

    /** One iteration: polls one completion. */
    method PollOnce() returns (received: bool, wc: Wc)
      requires Valid()
      modifies this
      ensures Valid()
      ensures old(cqs[offset]) == [] ==>
                !received && cqs == old(cqs)
                && offset == Next(threadNum, numThreads, |cqs|, old(offset))
      ensures old(cqs[offset]) != [] ==>
                && wc == old(cqs[offset][0]) && received == wc.RecvWc?
                && cqs == old(cqs)[old(offset) := old(cqs[offset])[1..]]
                && offset == if received then threadNum else old(offset)
    {
      wc := SendWc(0);
      if |cqs[offset]| == 0 {
        received := false;
        Advance();
      } else {
        wc := cqs[offset][0];
        received := wc.RecvWc?;
        cqs := cqs[offset := cqs[offset][1..]];
        if received {
          Restart();
        }
      }
    }

    method Advance()
      requires Valid()
      modifies this`offset
      ensures Valid() && offset == Next(threadNum, numThreads, |cqs|, old(offset))
    {
      ghost var k :| 0 <= k < |cqs| / numThreads && offset == Nth(threadNum, numThreads, k);
      NextIs(threadNum, numThreads, |cqs|, k);
      NthBelow(threadNum, numThreads, |cqs|, if k + 1 == |cqs| / numThreads then 0 else k + 1);
      hide Nth;
      if offset > numThreads * (|cqs| / numThreads - 1) - 1 {
        offset := threadNum;
      } else {
        offset := offset + numThreads;
      }
      assert offset == Nth(threadNum, numThreads, if k + 1 == |cqs| / numThreads then 0 else k + 1);
    }

    method Restart()
      requires Valid()
      modifies this`offset
      ensures Valid() && offset == threadNum
    {
      offset := threadNum;
      AtLeastOne(|cqs|, numThreads);
      assert offset == Nth(threadNum, numThreads, 0);
    }

    /** Polls the queue at hand until a request comes out of it or it is empty. */
    method PollQueue() returns (received: bool, wc: Wc)
      requires Valid()
      modifies this
      ensures Valid()
      ensures received <==> Receives(old(cqs[offset])) > 0
      ensures !received ==> cqs == old(cqs)[old(offset) := []]
                            && offset == Next(threadNum, numThreads, |cqs|, old(offset))
      ensures received ==> wc == FirstReceive(old(cqs[offset])) && offset == threadNum
                           && cqs == old(cqs)[old(offset) := AfterReceive(old(cqs[offset]))]
    {
      hide Next, Nth;
      ghost var o, cq := offset, cqs[offset];
      while |cqs[offset]| > 0 && cqs[offset][0].SendWc?
        invariant Valid() && offset == o && cqs == old(cqs)[o := cqs[o]]
        invariant Receives(cqs[o]) == Receives(cq)
        invariant Receives(cq) > 0 ==> FirstReceive(cqs[o]) == FirstReceive(cq)
                                       && AfterReceive(cqs[o]) == AfterReceive(cq)
        decreases |cqs[offset]|
      {
        received, wc := PollOnce();
      }
      received, wc := PollOnce();
    }

    /** The lowest of the thread's queues that hold a request is its `k`-th. */
    ghost predicate Lowest(qs: seq<seq<Wc>>, k: nat) {
      && numThreads > 0 && k < |qs| / numThreads
      && (forall j | 0 <= j <= k :: Nth(threadNum, numThreads, j) < |qs|)
      && Receives(qs[Nth(threadNum, numThreads, k)]) > 0
      && forall j | 0 <= j < k :: Receives(qs[Nth(threadNum, numThreads, j)]) == 0
    }

    /** A scan with no arrivals serves the oldest request of the lowest of the thread's queues
        that hold any, passing over send completions, and touches no queue but those. */
    method ScanUntilReceived(ghost k: nat) returns (wc: Wc)
      requires Valid() && offset == threadNum && Lowest(cqs, k)
      modifies this
      ensures Valid() && offset == threadNum
      ensures Nth(threadNum, numThreads, k) < |old(cqs)| == |cqs|
      ensures exists sends: nat ::
                SplitAt(old(cqs)[Nth(threadNum, numThreads, k)], sends, wc, cqs[Nth(threadNum, numThreads, k)])
      ensures forall q | 0 <= q < |cqs| && q != Nth(threadNum, numThreads, k) ::
                cqs[q] == if Among(threadNum, numThreads, k, q) then [] else old(cqs)[q]
    {
      ghost var before, at := cqs, Nth(threadNum, numThreads, k);
      ghost var j := 0;
      assert offset == Nth(threadNum, numThreads, 0);
      assert at < |cqs| && Receives(cqs[at]) > 0;
      hide Nth, Next, SplitAt, Among, Lowest, Valid;
      var received;
      received, wc := ScanStep(before, k, 0);
      while !received
        invariant Valid() && Lowest(before, k) && j <= k && received == (j == k)
        invariant |cqs| == |before|
        invariant !received ==> cqs == Emptied(before, threadNum, numThreads, j + 1)
                                && offset == Nth(threadNum, numThreads, j + 1)
        invariant received ==> offset == threadNum && wc == FirstReceive(before[at])
                               && cqs == Emptied(before, threadNum, numThreads, k)[at := AfterReceive(before[at])]
        decreases k - j
      {
        j := j + 1;
        received, wc := ScanStep(before, k, j);
      }
      hide *;
      ScanEnds(before, at, k, cqs);
    }

    lemma ScanEnds(before: seq<seq<Wc>>, at: nat, k: nat, after: seq<seq<Wc>>)
      requires at < |before| && Receives(before[at]) > 0
      requires after == Emptied(before, threadNum, numThreads, k)[at := AfterReceive(before[at])]
      ensures exists sends: nat :: SplitAt(before[at], sends, FirstReceive(before[at]), after[at])
      ensures |after| == |before|
      ensures forall q | 0 <= q < |after| && q != at ::
                after[q] == if Among(threadNum, numThreads, k, q) then [] else before[q]
    {
      hide Among, SplitAt;
      var sends := FirstReceiveSplits(before[at]);
      assert SplitAt(before[at], sends, FirstReceive(before[at]), after[at]);
      forall q | 0 <= q < |after| && q != at
        ensures after[q] == if Among(threadNum, numThreads, k, q) then [] else before[q] {
        EmptiedIs(before, threadNum, numThreads, k, q);
      }
    }

    /** Polls the thread's `j`-th queue, those before it having been emptied. */
    method ScanStep(ghost before: seq<seq<Wc>>, ghost k: nat, ghost j: nat) returns (received: bool, wc: Wc)
      requires Valid() && Lowest(before, k) && j <= k
      requires cqs == Emptied(before, threadNum, numThreads, j) && offset == Nth(threadNum, numThreads, j)
      modifies this
      ensures Valid() && |cqs| == |before| && received == (j == k)
      ensures !received ==> cqs == Emptied(before, threadNum, numThreads, j + 1)
                            && offset == Nth(threadNum, numThreads, j + 1)
      ensures received ==>
                var at := Nth(threadNum, numThreads, k);
                && at < |before| && Receives(before[at]) > 0
                && offset == threadNum && wc == FirstReceive(before[at])
                && cqs == Emptied(before, threadNum, numThreads, k)[at := AfterReceive(before[at])]
    {
      Untouched(before, k, j);
      NextIs(threadNum, numThreads, |cqs|, j);
      hide Nth, Next, Lowest, Valid;
      received, wc := PollQueue();
    }

    /** The `j`-th queue is still as it was when the scan comes to it. */
    lemma Untouched(before: seq<seq<Wc>>, k: nat, j: nat)
      requires threadNum < numThreads && Lowest(before, k) && j <= k
      ensures var here := Nth(threadNum, numThreads, j);
              && here < |before| && Emptied(before, threadNum, numThreads, j)[here] == before[here]
              && (Receives(before[here]) > 0 <==> j == k)
    {
      hide Nth;
      EmptiedIs(before, threadNum, numThreads, j, Nth(threadNum, numThreads, j));
      NotAmong(threadNum, numThreads, j);
    }
  }
}
