/** When completions are signalled closer together than a queue has buffers, the look-ahead
    can use up both tries on send completions, and a request is served twice. */
module NotificationLimits {
  import Arithmetic
  import opened Pipeline
  import opened Notification

  /** A run brings queue `q` to `x` with the server in phase `ph` of it. */
  ghost predicate Attained(blocks: seq<set<nat>>, q: nat, x: Queue, ph: Phase, marks: iset<nat>) {
    exists s :: Reachable(blocks, s, marks) && Shows(s, q, x, ph)
  }

  ghost predicate Shows(s: State, q: nat, x: Queue, ph: Phase) {
    && q < |s.queues| && s.queues[q] == x && PhaseOf(s, q) == ph
    && (q == s.connIndex || s.phase.Out?)
  }

  lemma {:induction false} OneMore(s: State, steps: seq<Action>, a: Action, marks: iset<nat>)
    requires Legal(s, steps, marks) && Enabled(After(s, steps, marks), a)
    ensures Legal(s, steps + [a], marks)
    ensures After(s, steps + [a], marks) == Apply(After(s, steps, marks), a, marks)
    decreases |steps|
  {
    hide QueueAfter, QueueEnabled;
    if steps == [] {
      assert [a][1..] == [];
    } else {
      assert (steps + [a])[1..] == steps[1..] + [a];
      OneMore(Apply(s, steps[0], marks), steps[1..], a, marks);
    }
  }

  lemma ShowsNext(s: State, q: nat, x: Queue, ph: Phase, a: QueueStep, marks: iset<nat>)
    requires Shows(s, q, x, ph) && QueueEnabled(x, ph, a)
    ensures Enabled(s, Do(q, a))
    ensures var (y, qh) := QueueAfter(x, ph, a, marks);
            Shows(Apply(s, Do(q, a), marks), q, y, qh)
  {
  }

  lemma Next(blocks: seq<set<nat>>, q: nat, x: Queue, ph: Phase, a: QueueStep,
             y: Queue, qh: Phase, marks: iset<nat>)
    requires Attained(blocks, q, x, ph, marks) && QueueEnabled(x, ph, a)
    requires QueueAfter(x, ph, a, marks) == (y, qh)
    ensures Attained(blocks, q, y, qh, marks)
  {
    hide QueueAfter, QueueEnabled, Shows;
    var s :| Reachable(blocks, s, marks) && Shows(s, q, x, ph);
    var steps :| Legal(Start(blocks), steps, marks) && After(Start(blocks), steps, marks) == s;
    ShowsNext(s, q, x, ph, a, marks);
    OneMore(Start(blocks), steps, Do(q, a), marks);
    var t := Apply(s, Do(q, a), marks);
    assert Reachable(blocks, t, marks) && Shows(t, q, y, qh);
  }

  lemma StartAttained(blocks: seq<set<nat>>, q: nat, marks: iset<nat>)
    requires q < |blocks|
    ensures Attained(blocks, q, Fresh(blocks[q]), Out, marks)
  {
    var none: seq<Action> := [];
    assert Legal(Start(blocks), none, marks);
    assert Reachable(blocks, Start(blocks), marks) && Shows(Start(blocks), q, Fresh(blocks[q]), Out);
  }

  /** From a poll that finds the receive of buffer `b` to the point of sending. */
  lemma ToSending(blocks: seq<set<nat>>, q: nat, x: Queue, b: nat, marks: iset<nat>)
    requires Attained(blocks, q, x, Out, marks)
    requires x.cq == [] && !x.byte && x.stashBuf == 0 && b in x.posted
    ensures var wc := RecvWc(b, 1);
            Attained(blocks, q, x.(arrived := x.arrived + [wc], served := x.served + [wc],
                                   taken := x.taken + 1), Sending, marks)
  {
    hide Attained;
    var wc := RecvWc(b, 1);
    var rest := x.posted - multiset{b};
    var x1 := x.(posted := rest, cq := [wc], byte := true, arrived := x.arrived + [wc]);
    assert x.cq + [wc] == [wc];
    Next(blocks, q, x, Out, Arrive(b, 1), x1, Out, marks);
    Next(blocks, q, x1, Out, Scan, x1, Found, marks);
    var x2 := x1.(byte := false);
    Next(blocks, q, x1, Found, Clear, x2, Cleared, marks);
    Next(blocks, q, x2, Cleared, TestStash, x2, Polling, marks);
    var x3 := x2.(cq := [], taken := x.taken + 1, served := x.served + [wc]);
    assert x2.cq[1..] == [];
    Next(blocks, q, x2, Polling, Poll, x3, Serving(b), marks);
    var x4 := x3.(posted := x.posted);
    assert rest + multiset{b} == x.posted;
    Next(blocks, q, x3, Serving(b), Repost, x4, Sending, marks);
    assert x4 == x.(arrived := x.arrived + [wc], served := x.served + [wc], taken := x.taken + 1);
  }

  /** A lone response is sent, and its completion, if any, is looked up. */
  lemma FinishAlone(blocks: seq<set<nat>>, q: nat, x: Queue, marks: iset<nat>)
    requires Attained(blocks, q, x, Sending, marks)
    requires x.cq == [] && x.stashBuf == 0 && x.stashSrc == 0
    ensures Attained(blocks, q, x, Out, marks)
  {
    hide Attained;
    if x.taken in marks {
      var x1 := x.(cq := [SendWc(x.taken)]);
      assert x.cq + Completion(x.taken, marks) == x1.cq;
      Next(blocks, q, x, Sending, Send, x1, Looking(false), marks);
      assert x1.cq[1..] == [];
      Next(blocks, q, x1, Looking(false), Look, x, Looking(true), marks);
      Next(blocks, q, x, Looking(true), Look, x, Out, marks);
    } else {
      assert x.cq + Completion(x.taken, marks) == x.cq;
      Next(blocks, q, x, Sending, Send, x, Looking(false), marks);
      Next(blocks, q, x, Looking(false), Look, x, Out, marks);
    }
  }

  /** A queue with `n` requests served and nothing going on. */
  ghost predicate Quiet(x: Queue, block: set<nat>, n: nat) {
    && x.posted == multiset(block) && x.cq == [] && !x.byte
    && x.stashBuf == 0 && x.stashSrc == 0 && x.taken == n && x.arrived == x.served
  }

  lemma {:induction false} ServeQuietly(blocks: seq<set<nat>>, q: nat, b: nat, n: nat, marks: iset<nat>)
      returns (x: Queue)
    requires q < |blocks| && b in blocks[q]
    ensures Quiet(x, blocks[q], n) && Attained(blocks, q, x, Out, marks)
  {
    hide Attained;
    if n == 0 {
      StartAttained(blocks, q, marks);
      x := Fresh(blocks[q]);
    } else {
      var y := ServeQuietly(blocks, q, b, n - 1, marks);
      ToSending(blocks, q, y, b, marks);
      var wc := RecvWc(b, 1);
      x := y.(arrived := y.arrived + [wc], served := y.served + [wc], taken := y.taken + 1);
      FinishAlone(blocks, q, x, marks);
    }
  }

  lemma {:induction false} ArriveAll(blocks: seq<set<nat>>, q: nat, x: Queue, bufs: seq<nat>,
                                     marks: iset<nat>) returns (y: Queue)
    requires Attained(blocks, q, x, Sending, marks) && multiset(bufs) <= x.posted && bufs != []
    ensures Attained(blocks, q, y, Sending, marks)
    ensures y == x.(posted := y.posted, cq := x.cq + RecvWcs(bufs, 1), byte := true,
                    arrived := x.arrived + RecvWcs(bufs, 1))
    decreases |bufs|
  {
    hide Attained;
    var wc := RecvWc(bufs[0], 1);
    OneLess(x.cq, bufs, 1);
    OneLess(x.arrived, bufs, 1);
    var x1 := x.(posted := x.posted - multiset{bufs[0]}, cq := x.cq + [wc], byte := true,
                 arrived := x.arrived + [wc]);
    Next(blocks, q, x, Sending, Arrive(bufs[0], 1), x1, Sending, marks);
    if |bufs| == 1 {
      y := x1;
      assert RecvWcs(bufs[1..], 1) == [];
    } else {
      y := ArriveAll(blocks, q, x1, bufs[1..], marks);
    }
  }

  /** The stash holds a receive, more of them and then the completion of send `n1` wait behind
      it, and nothing else has arrived and not been served. */
  ghost predicate Loaded(x: Queue, bufs: seq<nat>, n1: nat, taken: nat) {
    && bufs != [] && x.stashBuf == bufs[0] && bufs[0] != 0 && x.stashSrc == 1 && x.byte
    && x.cq == RecvWcs(bufs[1..], 1) + [SendWc(n1)] && x.taken == taken
    && x.arrived == x.served + RecvWcs(bufs, 1)
  }

  lemma ToLoaded(blocks: seq<set<nat>>, q: nat, b: nat, bufs: seq<nat>, n1: nat, marks: iset<nat>)
      returns (x: Queue)
    requires q < |blocks| && b in blocks[q] && bufs != [] && bufs[0] != 0
    requires multiset(bufs) <= multiset(blocks[q]) && n1 > 0 && n1 in marks
    ensures Loaded(x, bufs, n1, n1) && Attained(blocks, q, x, Out, marks)
  {
    hide Attained;
    var y := ServeQuietly(blocks, q, b, n1 - 1, marks);
    ToSending(blocks, q, y, b, marks);
    var wc := RecvWc(b, 1);
    y := y.(arrived := y.arrived + [wc], served := y.served + [wc], taken := y.taken + 1);
    y := ArriveAll(blocks, q, y, bufs, marks);
    var y1 := y.(cq := y.cq + [SendWc(n1)]);
    Next(blocks, q, y, Sending, Send, y1, Looking(false), marks);
    OneLess([], bufs, 1);
    assert y1.cq == [RecvWc(bufs[0], 1)] + (RecvWcs(bufs[1..], 1) + [SendWc(n1)]);
    x := y1.(cq := RecvWcs(bufs[1..], 1) + [SendWc(n1)], stashBuf := bufs[0], stashSrc := 1);
    Next(blocks, q, y1, Looking(false), Look, x, Out, marks);
  }

  /** The stashed request is served up to the point of sending. */
  lemma ServeStash(blocks: seq<set<nat>>, q: nat, x: Queue, marks: iset<nat>) returns (y: Queue)
    requires Attained(blocks, q, x, Out, marks) && x.byte && StashValid(x)
    ensures Attained(blocks, q, y, Sending, marks)
    ensures y == x.(posted := x.posted + multiset{x.stashBuf}, byte := false, taken := x.taken + 1,
                    served := x.served + [RecvWc(x.stashBuf, x.stashSrc)])
  {
    hide Attained;
    Next(blocks, q, x, Out, Scan, x, Found, marks);
    var x1 := x.(byte := false);
    Next(blocks, q, x, Found, Clear, x1, Cleared, marks);
    var x2 := Take(x1, RecvWc(x.stashBuf, x.stashSrc));
    Next(blocks, q, x1, Cleared, TestStash, x2, Serving(x.stashBuf), marks);
    y := x2.(posted := x.posted + multiset{x.stashBuf});
    Next(blocks, q, x2, Serving(x.stashBuf), Repost, y, Sending, marks);
  }

  /** Serving the stashed request stashes the next, as long as the send is not signalled. */
  lemma UnloadOne(blocks: seq<set<nat>>, q: nat, x: Queue, bufs: seq<nat>, n1: nat, taken: nat,
                  marks: iset<nat>) returns (y: Queue)
    requires Attained(blocks, q, x, Out, marks) && Loaded(x, bufs, n1, taken)
    requires |bufs| > 1 && bufs[1] != 0 && taken + 1 !in marks
    ensures Attained(blocks, q, y, Out, marks) && Loaded(y, bufs[1..], n1, taken + 1)
  {
    hide Attained;
    var rest := bufs[1..];
    var x1 := ServeStash(blocks, q, x, marks);
    SendNothing(blocks, q, x1, marks);
    OneLess([], rest, 1);
    OneLess(x.served, bufs, 1);
    var cq := RecvWcs(rest[1..], 1) + [SendWc(n1)];
    assert x1.cq == [RecvWc(rest[0], 1)] + cq;
    y := x1.(cq := cq, byte := true, stashBuf := rest[0], stashSrc := 1);
    assert x1.cq[1..] == cq;
    Next(blocks, q, x1, Looking(false), Look, y, Out, marks);
  }

  lemma SendNothing(blocks: seq<set<nat>>, q: nat, x: Queue, marks: iset<nat>)
    requires Attained(blocks, q, x, Sending, marks) && x.taken !in marks
    ensures Attained(blocks, q, x, Looking(false), marks)
  {
    hide Attained;
    assert x.cq + Completion(x.taken, marks) == x.cq;
    Next(blocks, q, x, Sending, Send, x, Looking(false), marks);
  }

  /** And so on, until only the completion is left. */
  lemma {:induction false} Unload(blocks: seq<set<nat>>, q: nat, x: Queue, bufs: seq<nat>, n1: nat,
                                  taken: nat, marks: iset<nat>) returns (y: Queue, last: nat)
    requires Attained(blocks, q, x, Out, marks) && Loaded(x, bufs, n1, taken)
    requires forall b | b in bufs :: b != 0
    requires forall k | taken < k < taken + |bufs| :: k !in marks
    ensures Attained(blocks, q, y, Out, marks) && Loaded(y, [last], n1, taken + |bufs| - 1)
    decreases |bufs|
  {
    assert bufs != [];
    hide Attained, Loaded;
    if |bufs| == 1 {
      y, last := x, bufs[0];
      assert bufs == [last];
    } else {
      assert bufs[1] in bufs;
      y := UnloadOne(blocks, q, x, bufs, n1, taken, marks);
      assert forall b | b in bufs[1..] :: b in bufs;
      y, last := Unload(blocks, q, y, bufs[1..], n1, taken + 1, marks);
    }
  }

  /** Two send completions use up the look-ahead: the byte is clear, nothing waits, and the
      stash still holds a request that was served. */
  lemma LeaveStale(blocks: seq<set<nat>>, q: nat, x: Queue, last: nat, n1: nat, n2: nat,
                   marks: iset<nat>) returns (y: Queue)
    requires Attained(blocks, q, x, Out, marks) && n2 > 0 && Loaded(x, [last], n1, n2 - 1) && n2 in marks
    ensures Attained(blocks, q, y, Out, marks)
    ensures !y.byte && StashValid(y) && y.stashSrc == 1 && y.stashBuf in y.posted
    ensures y.arrived == y.served
  {
    hide Attained;
    OneLess(x.served, [last], 1);
    assert x.cq == [SendWc(n1)];
    var x1 := ServeStash(blocks, q, x, marks);
    var x2 := x1.(cq := [SendWc(n1), SendWc(n2)]);
    assert x1.cq + Completion(n2, marks) == x2.cq;
    Next(blocks, q, x1, Sending, Send, x2, Looking(false), marks);
    var x3 := x1.(cq := [SendWc(n2)]);
    assert x2.cq[1..] == x3.cq;
    Next(blocks, q, x2, Looking(false), Look, x3, Looking(true), marks);
    y := x1.(cq := []);
    assert x3.cq[1..] == [];
    Next(blocks, q, x3, Looking(true), Look, y, Out, marks);
  }

  /** Some request has been served more often than it arrived. */
  ghost predicate Repeats(x: Queue) {
    exists wc :: multiset(x.served)[wc] > multiset(x.arrived)[wc]
  }

  lemma RepeatsIsUnsound(x: Queue, ph: Phase)
    requires Repeats(x)
    ensures !SoundQueue(x, ph)
  {
    if x.served <= x.arrived {
      PrefixCounts(x.served, x.arrived);
    }
  }

  lemma PrefixCounts(a: seq<Wc>, b: seq<Wc>)
    requires a <= b
    ensures multiset(a) <= multiset(b)
  {
    assert b == a + b[|a|..];
  }

  /** The next arrival sets the byte, and the stale request is served instead of it. */
  lemma ServeStale(blocks: seq<set<nat>>, q: nat, x: Queue, marks: iset<nat>) returns (y: Queue, ph: Phase)
    requires Attained(blocks, q, x, Out, marks)
    requires !x.byte && StashValid(x) && x.stashSrc == 1 && x.stashBuf in x.posted
    requires x.arrived == x.served
    ensures Attained(blocks, q, y, ph, marks) && Repeats(y)
  {
    hide Attained;
    var wc := RecvWc(x.stashBuf, 2);
    var x1 := x.(posted := x.posted - multiset{x.stashBuf}, cq := x.cq + [wc], byte := true,
                 arrived := x.arrived + [wc]);
    Next(blocks, q, x, Out, Arrive(x.stashBuf, 2), x1, Out, marks);
    Next(blocks, q, x1, Out, Scan, x1, Found, marks);
    var x2 := x1.(byte := false);
    Next(blocks, q, x1, Found, Clear, x2, Cleared, marks);
    y, ph := Take(x2, RecvWc(x.stashBuf, 1)), Serving(x.stashBuf);
    Next(blocks, q, x2, Cleared, TestStash, y, ph, marks);
    assert multiset(y.served)[RecvWc(x.stashBuf, 1)] > multiset(y.arrived)[RecvWc(x.stashBuf, 1)];
  }

  /** Two marked sends exactly a gap apart, with none between. */
  lemma CloseMarks(interval: nat) returns (n1: nat, n2: nat)
    requires 0 < interval < COUNTER_RANGE
    ensures 0 < n1 && n2 == n1 + Gap(interval)
    ensures n1 in Marks(interval) && n2 in Marks(interval)
    ensures forall k | n1 < k < n2 :: k !in Marks(interval)
  {
    n2 := COUNTER_RANGE;
    n1 := n2 - Gap(interval);
    LastMultiple(interval);
    hide Gap;
    forall k | n1 < k < n2 ensures k !in Marks(interval) {
      MarksAreSpaced(interval);
    }
  }

  lemma LastMultiple(interval: nat)
    requires 0 < interval < COUNTER_RANGE
    ensures 0 < COUNTER_RANGE - Gap(interval)
    ensures COUNTER_RANGE - Gap(interval) in Marks(interval) && COUNTER_RANGE in Marks(interval)
  {
    var k := COUNTER_RANGE / interval;
    assert COUNTER_RANGE == k * interval + COUNTER_RANGE % interval;
    if COUNTER_RANGE % interval == 0 {
      assert (k - 1) * interval == k * interval - interval;
      Arithmetic.DivUnique(COUNTER_RANGE - interval, interval, k - 1, 0);
    } else {
      Arithmetic.DivUnique(COUNTER_RANGE - Gap(interval), interval, k, 0);
    }
  }

  lemma {:induction false} Choose(block: set<nat>, n: nat) returns (bufs: seq<nat>)
    requires n <= |block|
    ensures |bufs| == n && multiset(bufs) <= multiset(block) && forall b | b in bufs :: b in block
  {
    if n == 0 {
      bufs := [];
    } else {
      var b :| b in block;
      var rest := Choose(block - {b}, n - 1);
      bufs := [b] + rest;
      assert block == (block - {b}) + {b};
    }
  }

  /** A queue with as many buffers as the gap reaches a state in which a request has been
      served twice. */
  lemma ServedTwice(interval: nat, blocks: seq<set<nat>>, q: nat) returns (s: State)
    requires 0 < interval < COUNTER_RANGE && q < |blocks|
    requires 0 !in blocks[q] && |blocks[q]| >= Gap(interval)
    ensures Reachable(blocks, s, Marks(interval)) && !Sound(s)
    ensures q < |s.queues| && Repeats(s.queues[q])
  {
    var marks := Marks(interval);
    var n1, n2 := CloseMarks(interval);
    var bufs := Choose(blocks[q], n2 - n1);
    var x := ToLoaded(blocks, q, bufs[0], bufs, n1, marks);
    var y, last := Unload(blocks, q, x, bufs, n1, n1, marks);
    var z := LeaveStale(blocks, q, y, last, n1, n2, marks);
    var w, ph := ServeStale(blocks, q, z, marks);
    s :| Reachable(blocks, s, marks) && Shows(s, q, w, ph);
    RepeatsIsUnsound(w, ph);
    assert !SoundQueue(s.queues[q], PhaseOf(s, q));
  }

  /** The protocol is sound exactly when completions are signalled further apart than any
      queue has buffers. */
  lemma SoundIff(interval: nat, blocks: seq<set<nat>>)
    requires 0 < interval < COUNTER_RANGE && forall q | 0 <= q < |blocks| :: 0 !in blocks[q]
    ensures (forall s | Reachable(blocks, s, Marks(interval)) :: Sound(s))
       <==> (forall q | 0 <= q < |blocks| :: |blocks[q]| < Gap(interval))
  {
    if forall q | 0 <= q < |blocks| :: |blocks[q]| < Gap(interval) {
      MarksAreSpaced(interval);
      forall s | Reachable(blocks, s, Marks(interval)) ensures Sound(s) {
        NotificationIsSound(blocks, s, Marks(interval), Gap(interval));
      }
    } else {
      var q :| 0 <= q < |blocks| && |blocks[q]| >= Gap(interval);
      var s := ServedTwice(interval, blocks, q);
    }
  }
}
