/** A run that fills both queues to the bounds of `EchoServer`. It serves in order of arrival, so
    it is there whatever the order of service. */
module EchoTightness {
  import opened Arithmetic
  import opened Pipeline
  import opened EchoServer

  lemma {:induction false} OneMore(order: Order, s: Conn, steps: seq<Action>, a: Action, marks: iset<nat>)
    requires Legal(order, s, steps, marks) && Enabled(order, After(order, s, steps, marks), a)
    ensures Legal(order, s, steps + [a], marks)
    ensures After(order, s, steps + [a], marks) == Apply(After(order, s, steps, marks), a, marks)
    decreases |steps|
  {
    if steps == [] {
      assert [a][1..] == [];
    } else {
      assert (steps + [a])[1..] == steps[1..] + [a];
      OneMore(order, Apply(s, steps[0], marks), steps[1..], a, marks);
    }
  }

  lemma StartIsReachable(order: Order, block: set<nat>, marks: iset<nat>)
    ensures Reachable(order, block, Start(block), marks)
  {
    var none: seq<Action> := [];
    assert Legal(order, Start(block), none, marks);
  }

  lemma Then(order: Order, block: set<nat>, s: Conn, a: Action, marks: iset<nat>) returns (t: Conn)
    requires Reachable(order, block, s, marks) && Enabled(order, s, a)
    ensures t == Apply(s, a, marks) && Reachable(order, block, t, marks)
  {
    var steps :| Legal(order, Start(block), steps, marks) && After(order, Start(block), steps, marks) == s;
    OneMore(order, Start(block), steps, a, marks);
    t := Apply(s, a, marks);
  }

  /** All buffers posted, nothing in flight, `taken` receives taken and the sends up to
      `reclaimed` reclaimed. */
  ghost function Quiet(block: set<nat>, pc: Pc, taken: nat, reclaimed: nat): Conn {
    Conn(multiset(block), [], [], pc, taken, reclaimed, multiset{})
  }

  lemma PollFirst(order: Order, block: set<nat>, s: Conn, first: seq<Wc>, rest: seq<Wc>, marks: iset<nat>)
      returns (t: Conn)
    requires Reachable(order, block, s, marks) && s.pc.Idle? && s.filed == multiset{}
    requires s.batch == [] && s.cq == first + rest
    ensures Reachable(order, block, t, marks)
    ensures t == s.(batch := first, cq := rest, reclaimed := LastSend(first, s.reclaimed))
  {
    assert s.cq[..|first|] == first && s.cq[|first|..] == rest;
    t := Then(order, block, s, Poll(|first|), marks);
  }

  lemma LoneReceive(b: nat, lo: nat)
    ensures LastSend([RecvWc(b, 0)], lo) == lo
  {
    assert [RecvWc(b, 0)][1..] == [];
  }

  /** A request arrives alone, is taken, and its buffer goes back. */
  lemma TakeOne(order: Order, block: set<nat>, b: nat, taken: nat, r: nat, marks: iset<nat>)
    requires b in block && Reachable(order, block, Quiet(block, Idle, taken, r), marks)
    ensures Reachable(order, block, Quiet(block, Reposted(b), taken + 1, r), marks)
  {
    hide Reachable;
    var rest := multiset(block) - multiset{b};
    LoneReceive(b, r);
    var s1 := Then(order, block, Quiet(block, Idle, taken, r), Arrive(b, 0), marks);
    assert s1 == Conn(rest, [RecvWc(b, 0)], [], Idle, taken, r, multiset{});
    var s2 := PollFirst(order, block, s1, [RecvWc(b, 0)], [], marks);
    assert s2.batch[1..] == [];
    var s3 := Then(order, block, s2, Take, marks);
    assert s3 == Conn(rest, [], [], Idle, taken, r, multiset{b});
    var s4 := Then(order, block, s3, Serve(b), marks);
    assert s4 == Conn(rest, [], [], Serving(b), taken + 1, r, multiset{});
    var s5 := Then(order, block, s4, Repost, marks);
    assert s5.posted == multiset(block);
  }

  /** The response is sent, and its completion polled if it is marked. */
  lemma SendOne(order: Order, block: set<nat>, b: nat, n: nat, r: nat, marks: iset<nat>)
    requires b in block && n > 0 && Reachable(order, block, Quiet(block, Reposted(b), n, r), marks)
    ensures Reachable(order, block, Quiet(block, Idle, n, if n in marks then n else r), marks)
  {
    hide Reachable;
    var t := Then(order, block, Quiet(block, Reposted(b), n, r), Send, marks);
    if n in marks {
      LoneSend(n, r);
      assert t.cq == [SendWc(n)];
      t := PollFirst(order, block, t, [SendWc(n)], [], marks);
      assert t.batch[1..] == [];
      t := Then(order, block, t, Take, marks);
      assert t == Quiet(block, Idle, n, n);
    } else {
      assert t == Quiet(block, Idle, n, r);
    }
  }

  lemma LoneSend(n: nat, lo: nat)
    ensures LastSend([SendWc(n)], lo) == n
  {
    assert LastSend([SendWc(n)], lo) == LastSend([], n);
  }

  /** `n` requests are served and answered one at a time; the last marked response is
      reclaimed. */
  lemma {:induction false} ServeOneByOne(order: Order, block: set<nat>, b: nat, n: nat, marks: iset<nat>)
      returns (r: nat)
    requires b in block
    ensures r == 0 || (1 <= r <= n && r in marks)
    ensures Reachable(order, block, Quiet(block, Idle, n, r), marks)
  {
    hide Reachable, Quiet;
    if n == 0 {
      StartIsQuiet(order, block, marks);
      r := 0;
    } else {
      r := ServeOneByOne(order, block, b, n - 1, marks);
      TakeOne(order, block, b, n - 1, r, marks);
      SendOne(order, block, b, n, r, marks);
      r := if n in marks then n else r;
    }
  }

  lemma StartIsQuiet(order: Order, block: set<nat>, marks: iset<nat>)
    ensures Reachable(order, block, Quiet(block, Idle, 0, 0), marks)
  {
    StartIsReachable(order, block, marks);
  }

  lemma {:induction false} NoneReported(bufs: seq<nat>, lo: nat)
    ensures LastSend(RecvWcs(bufs, 0), lo) == lo
  {
    if bufs != [] {
      assert RecvWcs(bufs, 0)[1..] == RecvWcs(bufs[1..], 0);
      NoneReported(bufs[1..], lo);
    }
  }

  /** Requests arrive into all of `bufs`. */
  lemma {:induction false} ArriveAll(order: Order, block: set<nat>, s: Conn, bufs: seq<nat>, marks: iset<nat>)
      returns (t: Conn)
    requires Reachable(order, block, s, marks) && s.posted == multiset(bufs)
    ensures Reachable(order, block, t, marks)
    ensures t == s.(posted := multiset{}, cq := s.cq + RecvWcs(bufs, 0))
    decreases |bufs|
  {
    if bufs == [] {
      assert s.cq + RecvWcs(bufs, 0) == s.cq;
      t := s;
    } else {
      OneLess(s.cq, bufs, 0);
      t := Then(order, block, s, Arrive(bufs[0], 0), marks);
      t := ArriveAll(order, block, t, bufs[1..], marks);
    }
  }

  /** A receive at the head of the batch is served, and its buffer is filled again before the
      response is sent. */
  lemma ServeAndRefill(order: Order, block: set<nat>, s: Conn, marks: iset<nat>) returns (t: Conn)
    requires Reachable(order, block, s, marks) && s.pc.Idle? && s.filed == multiset{}
    requires s.batch != [] && s.batch[0].RecvWc? && s.batch[0].src == 0
    ensures Reachable(order, block, t, marks)
    ensures t.pc.Idle? && t.filed == multiset{} && t.batch == s.batch[1..]
    ensures t.taken == s.taken + 1 && t.reclaimed == s.reclaimed
    ensures t.cq == s.cq + [s.batch[0]] + Completion(t.taken, marks)
  {
    hide Reachable;
    var b := s.batch[0].buf;
    t := Then(order, block, s, Take, marks);
    assert t.filed == multiset{b};
    t := Then(order, block, t, Serve(b), marks);
    assert t.filed == multiset{};
    t := Then(order, block, t, Repost, marks);
    t := Then(order, block, t, Arrive(b, 0), marks);
    t := Then(order, block, t, Send, marks);
  }

  lemma {:induction false} ServeBatch(order: Order, block: set<nat>, s: Conn, bufs: seq<nat>, marks: iset<nat>)
      returns (t: Conn)
    requires Reachable(order, block, s, marks) && s.pc.Idle? && s.filed == multiset{} && s.batch == RecvWcs(bufs, 0)
    ensures Reachable(order, block, t, marks)
    ensures t.pc.Idle? && t.taken == s.taken + |bufs| && t.reclaimed == s.reclaimed
    ensures |t.cq| == |s.cq| + |bufs| + MarkedBetween(s.taken, t.taken, marks)
    decreases |bufs|
  {
    if bufs == [] {
      t := s;
    } else {
      t := ServeAndRefill(order, block, s, marks);
      assert t.batch == RecvWcs(bufs[1..], 0);
      t := ServeBatch(order, block, t, bufs[1..], marks);
    }
  }

  /** How many of the sends `lo + 1 .. hi` are marked. */
  ghost function MarkedBetween(lo: nat, hi: nat, marks: iset<nat>): nat
    decreases hi - lo
  {
    if lo >= hi then 0 else (if lo + 1 in marks then 1 else 0) + MarkedBetween(lo + 1, hi, marks)
  }

  lemma MarkedIff(n: nat, interval: nat)
    requires 0 < interval && n < COUNTER_RANGE
    ensures n in Marks(interval) <==> n % interval == 0
  {
  }

  lemma {:induction false} MultiplesBetween(lo: nat, hi: nat, interval: nat)
    requires 0 < interval && lo <= hi < COUNTER_RANGE
    ensures MarkedBetween(lo, hi, Marks(interval)) == hi / interval - lo / interval
    decreases hi - lo
  {
    hide Marks;
    if lo < hi {
      MultiplesBetween(lo + 1, hi, interval);
      MarkedIff(lo + 1, interval);
      DivSucc(lo, interval);
      RemainderSucc(lo, interval);
    }
  }

  lemma {:induction false} Enumerate(block: set<nat>) returns (bufs: seq<nat>)
    ensures multiset(bufs) == multiset(block) && |bufs| == |block|
  {
    if block == {} {
      bufs := [];
    } else {
      var b :| b in block;
      var rest := Enumerate(block - {b});
      bufs := [b] + rest;
      assert block == (block - {b}) + {b};
    }
  }

  /** All buffers are filled just ahead of the completion of send `n`. */
  lemma FillAhead(order: Order, block: set<nat>, b: nat, bufs: seq<nat>, n: nat, r: nat, marks: iset<nat>)
      returns (s: Conn)
    requires b in block && multiset(bufs) == multiset(block)
    requires Reachable(order, block, Quiet(block, Reposted(b), n, r), marks) && n in marks
    ensures Reachable(order, block, s, marks)
    ensures s.pc.Idle? && s.filed == multiset{} && s.batch == [] && s.taken == n && s.reclaimed == r
    ensures s.cq == RecvWcs(bufs, 0) + [SendWc(n)]
  {
    hide Reachable;
    s := ArriveAll(order, block, Quiet(block, Reposted(b), n, r), bufs, marks);
    assert s.cq == RecvWcs(bufs, 0);
    s := Then(order, block, s, Send, marks);
  }

  /** Those receives are polled without the completion behind them. */
  lemma PollReceives(order: Order, block: set<nat>, b: nat, bufs: seq<nat>, n: nat, r: nat, marks: iset<nat>)
      returns (s: Conn)
    requires b in block && multiset(bufs) == multiset(block)
    requires Reachable(order, block, Quiet(block, Reposted(b), n, r), marks) && n in marks
    ensures Reachable(order, block, s, marks)
    ensures s.pc.Idle? && s.filed == multiset{} && s.taken == n && s.reclaimed == r
    ensures s.batch == RecvWcs(bufs, 0) && |s.cq| == 1
  {
    hide Reachable;
    s := FillAhead(order, block, b, bufs, n, r, marks);
    NoneReported(bufs, r);
    s := PollFirst(order, block, s, RecvWcs(bufs, 0), [SendWc(n)], marks);
  }

  lemma AboutToSend(order: Order, block: set<nat>, b: nat, n: nat, marks: iset<nat>) returns (r: nat)
    requires b in block && n > 0
    ensures r == 0 || (1 <= r < n && r in marks)
    ensures Reachable(order, block, Quiet(block, Reposted(b), n, r), marks)
  {
    hide Reachable, Quiet;
    r := ServeOneByOne(order, block, b, n - 1, marks);
    TakeOne(order, block, b, n - 1, r, marks);
  }

  /** Serving that batch fills both queues. */
  lemma FillQueues(order: Order, block: set<nat>, n: nat, marks: iset<nat>) returns (t: Conn, r: nat)
    requires block != {} && n > 0 && n in marks
    ensures Reachable(order, block, t, marks) && Unreclaimed(t) == n + |block| - r
    ensures r == 0 || (1 <= r < n && r in marks)
    ensures |t.cq| == 1 + |block| + MarkedBetween(n, n + |block|, marks)
  {
    var b :| b in block;
    var bufs := Enumerate(block);
    r := AboutToSend(order, block, b, n, marks);
    hide Reachable, Quiet, Unreclaimed, MarkedBetween;
    t := FillFrom(order, block, b, bufs, n, r, marks);
  }

  lemma FillFrom(order: Order, block: set<nat>, b: nat, bufs: seq<nat>, n: nat, r: nat, marks: iset<nat>)
      returns (t: Conn)
    requires b in block && multiset(bufs) == multiset(block) && |bufs| == |block| && n in marks
    requires Reachable(order, block, Quiet(block, Reposted(b), n, r), marks)
    ensures Reachable(order, block, t, marks) && Unreclaimed(t) == n + |block| - r
    ensures |t.cq| == 1 + |block| + MarkedBetween(n, n + |block|, marks)
  {
    hide Reachable, Quiet, Unreclaimed, MarkedBetween;
    var s := PollReceives(order, block, b, bufs, n, r, marks);
    t := ServeBatch(order, block, s, bufs, marks);
    UnreclaimedAtRest(t);
  }

  lemma UnreclaimedAtRest(s: Conn)
    requires s.pc.Idle?
    ensures Unreclaimed(s) == s.taken - s.reclaimed
  {
  }

  /** The first interval has no marks but its end. */
  lemma FirstMark(interval: nat, r: nat)
    requires 0 < interval < COUNTER_RANGE && r < interval
    ensures interval in Marks(interval) && (r in Marks(interval) ==> r == 0)
  {
    MarkedIff(interval, interval);
    MarkedIff(r, interval);
    DivUnique(interval, interval, 1, 0);
    DivUnique(r, interval, 0, r);
  }

  /** The bounds are reached: `interval + buffers` sends unreclaimed while the completion queue
      holds every buffer and one send completion for every `interval` sends posted. */
  lemma BoundsAreReached(order: Order, block: set<nat>, interval: nat) returns (s: Conn)
    requires block != {} && 0 < interval && interval + |block| < COUNTER_RANGE
    ensures Reachable(order, block, s, Marks(interval))
    ensures Unreclaimed(s) == interval + |block|
    ensures |s.cq| == |block| + (interval + |block|) / interval
  {
    hide Reachable, Marks, Unreclaimed, MarkedBetween;
    FirstMark(interval, 0);
    var r;
    s, r := FillQueues(order, block, interval, Marks(interval));
    FirstMark(interval, r);
    MultiplesBetween(interval, interval + |block|, interval);
    DivUnique(interval, interval, 1, 0);
  }

  /** Whatever the order of service, a send queue of the given depth suffices in every reachable
      state exactly when it holds one interval and one send for every buffer. */
  lemma SendQueueFitsIff(order: Order, block: set<nat>, interval: nat, depth: nat)
    requires block != {} && 0 < interval && interval + |block| < COUNTER_RANGE
    ensures (forall s | Reachable(order, block, s, Marks(interval)) :: Unreclaimed(s) <= depth)
       <==> interval + |block| <= depth
  {
    if interval + |block| <= depth {
      forall s | Reachable(order, block, s, Marks(interval)) ensures Unreclaimed(s) <= depth {
        QueuesNeverOverflow(order, block, s, interval);
      }
    } else {
      var s := BoundsAreReached(order, block, interval);
    }
  }

  // ---- the intervals the servers choose ----

  /** `signalInterval` in the priority server, a `uint16_t`. */
  function PriorityServerInterval(rxDepth: nat, recvBufsNum: nat): nat {
    (if recvBufsNum > rxDepth then (recvBufsNum - rxDepth) / 2 else (rxDepth - recvBufsNum) / 16)
      % 0x1_0000
  }

  /** A sixteenth of the slots to spare, or, with more buffers than slots, half the excess. */
  lemma PriorityServerIntervalIs(rxDepth: nat, recvBufsNum: nat)
    ensures var interval := PriorityServerInterval(rxDepth, recvBufsNum);
            && (recvBufsNum <= rxDepth && rxDepth - recvBufsNum < 0x10_0000 ==>
                  16 * interval <= rxDepth - recvBufsNum < 16 * interval + 16)
            && (rxDepth < recvBufsNum && recvBufsNum - rxDepth < 0x2_0000 ==>
                  2 * interval <= recvBufsNum - rxDepth < 2 * interval + 2)
  {
  }

  /** In whatever order the server serves its classes, the send queue of a queue pair holds in
      every run exactly when it has room for the interval and the queue pair's buffers, as it
      does with at least 16 slots spare; with fewer the interval is 0 and
      `rcnt % signalInterval` divides by zero. */
  lemma PriorityServerIntervalFits(rxDepth: nat, recvBufsNum: nat, block: set<nat>)
    requires block != {} && |block| <= recvBufsNum && |block| + 0x1_0000 < COUNTER_RANGE
    ensures var interval := PriorityServerInterval(rxDepth, recvBufsNum);
            && (recvBufsNum <= rxDepth < 0x10_0000 ==> (interval > 0 <==> recvBufsNum + 16 <= rxDepth))
            && (interval > 0 && recvBufsNum <= rxDepth ==> interval + |block| <= rxDepth)
            && (interval > 0 ==>
                  ((forall s | Reachable(Any, block, s, Marks(interval)) :: Unreclaimed(s) <= rxDepth)
                   <==> interval + |block| <= rxDepth))
  {
    var interval := PriorityServerInterval(rxDepth, recvBufsNum);
    if interval > 0 {
      SendQueueFitsIff(Any, block, interval, rxDepth);
    }
  }

  /** `signalInterval` in the echo server: the difference in sixteen bits. */
  function EchoServerInterval(rxDepth: nat, recvBufsNum: nat): nat {
    (rxDepth - recvBufsNum) % 0x1_0000
  }

  /** The spare slots, short of a multiple of 65536. */
  lemma EchoServerIntervalIs(rxDepth: nat, recvBufsNum: nat)
    requires recvBufsNum <= rxDepth
    ensures var interval := EchoServerInterval(rxDepth, recvBufsNum);
            interval < 0x1_0000 && (rxDepth - recvBufsNum - interval) % 0x1_0000 == 0
  {
  }

  /** The echo server's interval is usable exactly when the slots to spare are no multiple of
      65536. Then no run overflows the send queue, and with fewer than 65536 to spare some run
      uses it to the last slot. */
  lemma EchoServerIntervalFits(rxDepth: nat, recvBufsNum: nat, block: set<nat>)
    requires recvBufsNum <= rxDepth < COUNTER_RANGE && block != {} && |block| <= recvBufsNum
    ensures var interval := EchoServerInterval(rxDepth, recvBufsNum);
            && (interval > 0 <==> (rxDepth - recvBufsNum) % 0x1_0000 != 0)
            && (interval > 0 ==>
                  forall s | Reachable(Arrival, block, s, Marks(interval)) :: Unreclaimed(s) <= rxDepth)
            && (0 < rxDepth - recvBufsNum < 0x1_0000 && |block| == recvBufsNum ==>
                  exists s :: Reachable(Arrival, block, s, Marks(interval)) && Unreclaimed(s) == rxDepth)
  {
    var interval := EchoServerInterval(rxDepth, recvBufsNum);
    assert interval <= rxDepth - recvBufsNum;
    if interval > 0 {
      SendQueueFitsIff(Arrival, block, interval, rxDepth);
      if interval == rxDepth - recvBufsNum && |block| == recvBufsNum {
        var s := BoundsAreReached(Arrival, block, interval);
      }
    }
  }

  /** The repository's own example, a receive depth of 64 with 64 buffers, makes the interval 0,
      and `rcnt % signalInterval` divides by zero. */
  lemma DocumentedIntervalIsZero()
    ensures EchoServerInterval(64, 64) == 0
  {
  }
}
