/** The connection object and the loop that handles a polled batch, refining `EchoServer`. */
module EchoConnection {
  import Arithmetic
  import opened Pipeline
  import opened EchoServer
  import opened EchoTightness

  /** Receive work requests `base + lo .. base + hi - 1`. */
  ghost function WorkRequests(lo: nat, hi: nat, base: nat): (s: set<nat>)
    ensures forall w :: w in s <==> base + lo <= w < base + hi
    ensures |s| == if lo <= hi then hi - lo else 0
    decreases hi - lo
  {
    if lo >= hi then {} else WorkRequests(lo + 1, hi, base) + {base + lo}
  }

  lemma NextWorkRequest(r: nat, hi: nat, base: nat)
    requires r < hi
    ensures var w: nat := r + base;
            multiset(WorkRequests(r, hi, base)) == multiset(WorkRequests(r + 1, hi, base)) + multiset{w}
  {
    assert WorkRequests(r, hi, base) == WorkRequests(r + 1, hi, base) + {r + base};
  }

  lemma NoWorkRequests(hi: nat, lo: nat, base: nat)
    ensures hi <= lo ==> multiset(WorkRequests(lo, hi, base)) == multiset{}
  {
  }

  /** Between completions, with nothing filed: a receive is served as soon as it is taken. */
  ghost predicate Rests(s: Conn) {
    s.pc.Idle? && s.filed == multiset{}
  }

  /** Serves the receive of buffer `b`, which was just taken. */
  ghost function ServeTaken(s: Conn, b: nat, marks: iset<nat>): (t: Conn)
    requires s.pc.Idle? && s.filed == multiset{b}
    ensures Rests(t) && t.batch == s.batch
  {
    Apply(Apply(Apply(s, Serve(b), marks), Repost, marks), Send, marks)
  }

  /** Handles the completion at the head of the batch. */
  ghost function HandleOne(s: Conn, marks: iset<nat>): (t: Conn)
    requires Rests(s) && s.batch != []
    ensures Rests(t) && t.batch == s.batch[1..]
  {
    var taken := Apply(s, Take, marks);
    if s.batch[0].SendWc? then taken else ServeTaken(taken, s.batch[0].buf, marks)
  }

  ghost function HandleAll(s: Conn, marks: iset<nat>): (t: Conn)
    requires Rests(s)
    ensures Rests(t) && t.batch == []
    decreases |s.batch|
  {
    if s.batch == [] then s else HandleAll(HandleOne(s, marks), marks)
  }

  lemma ServeTakenKeepsInv(s: Conn, b: nat, block: set<nat>, marks: iset<nat>)
    requires s.pc.Idle? && s.filed == multiset{b} && Inv(s, block, marks)
    ensures Inv(ServeTaken(s, b, marks), block, marks)
  {
    hide Inv;
    InvStep(s, Serve(b), block, marks);
    var t := Apply(s, Serve(b), marks);
    InvStep(t, Repost, block, marks);
    InvStep(Apply(t, Repost, marks), Send, block, marks);
  }

  lemma HandleOneKeepsInv(s: Conn, block: set<nat>, marks: iset<nat>)
    requires Rests(s) && s.batch != [] && Inv(s, block, marks)
    ensures Inv(HandleOne(s, marks), block, marks)
  {
    hide Inv;
    InvStep(s, Take, block, marks);
    if s.batch[0].RecvWc? {
      ServeTakenKeepsInv(Apply(s, Take, marks), s.batch[0].buf, block, marks);
    }
  }

  lemma ReceiveHandled(s: Conn, marks: iset<nat>)
    requires Rests(s) && s.batch != [] && s.batch[0].RecvWc?
    ensures HandleOne(s, marks)
         == Conn(s.posted + multiset{s.batch[0].buf}, s.cq + Completion(s.taken + 1, marks), s.batch[1..], Idle,
                 s.taken + 1, s.reclaimed, multiset{})
  {
    hide Completion;
  }

  /** Assignment to a `uint16_t`. */
  function U16(x: nat): (r: nat)
    ensures x <= 0xFFFF ==> r == x
    ensures r <= 0xFFFF
  {
    x % 0x1_0000
  }

  function BlockStart(id: nat, buffersPerQ: nat): nat {
    id * buffersPerQ
  }

  lemma CountOne(taken: nat, interval: nat)
    requires interval > 0
    ensures (taken + 1) % COUNTER_RANGE == (taken % COUNTER_RANGE + 1) % COUNTER_RANGE
    ensures taken + 1 in Marks(interval) <==> (taken + 1) % COUNTER_RANGE % interval == 0
  {
  }

  /** A response: from the buffer of which receive, and to whom. */
  datatype Reply = Reply(buf: nat, dest: nat)

  /** The responses to a batch: one for each receive, in order, to its sender. */
  ghost function RepliesTo(batch: seq<Wc>): (replies: seq<Reply>)
    ensures |replies| == Receives(batch)
  {
    if batch == [] then []
    else (if batch[0].RecvWc? then [Reply(batch[0].buf, batch[0].src)] else []) + RepliesTo(batch[1..])
  }

  class EchoConnection {
    const rxDepth: nat
    const signalInterval: nat
    ghost const block: set<nat>
    const num_bufs: nat

    var posted: multiset<nat>   // receive work requests the queue pair holds
    var cq: seq<Wc>
    var wc: seq<Wc>             // the polled completions still to handle
    var replies: seq<Reply>
    var rcnt: nat               // unsigned int in the source
    var routs: int
    var taken: nat              // the device's send counters: posted or about to be,
    var reclaimed: nat          // and freed by a polled completion

    ghost function View(): Conn
      reads this
    {
      Conn(posted, cq, wc, Idle, taken, reclaimed, multiset{})
    }

    ghost predicate Valid()
      reads this
    {
      && 0 < signalInterval < COUNTER_RANGE && signalInterval + |block| <= rxDepth
      && rcnt == taken % COUNTER_RANGE
      && Inv(View(), block, Marks(signalInterval))
    }

    /** Posts the queue pair's own block of buffers, whose bounds are `uint16_t`: when they wrap,
        nothing of it or the wrong part. */
    constructor (id: nat, buffersPerQ: nat, recvBufsNum: nat, rxDepth: nat, signalInterval: nat)
      requires 0 < signalInterval && signalInterval + buffersPerQ <= rxDepth < COUNTER_RANGE
      ensures Valid() && routs == |block| && wc == [] && cq == [] && replies == []
      ensures posted == multiset(block)
      ensures var startbuf := U16(BlockStart(id, buffersPerQ));
              block == WorkRequests(startbuf, U16(startbuf + buffersPerQ), recvBufsNum)
      ensures var first := BlockStart(id, buffersPerQ);
              first + buffersPerQ <= 0xFFFF ==>
                block == WorkRequests(first, first + buffersPerQ, recvBufsNum) && routs == buffersPerQ
    {
      var startbuf := U16(BlockStart(id, buffersPerQ));
      var endbuf := U16(startbuf + buffersPerQ);
      assert endbuf <= startbuf + buffersPerQ;
      assert |WorkRequests(startbuf, endbuf, recvBufsNum)| == if startbuf <= endbuf then endbuf - startbuf else 0;
      hide BlockStart, U16, Inv, WorkRequests;
      block := WorkRequests(startbuf, endbuf, recvBufsNum);
      this.rxDepth, this.signalInterval, num_bufs := rxDepth, signalInterval, recvBufsNum;
      posted, cq, wc, replies, rcnt, routs := multiset{}, [], [], [], 0, 0;
      taken, reclaimed := 0, 0;
      new;
      PostBlock(startbuf, endbuf);
      InvAtStart(block, Marks(signalInterval));
      assert View() == Start(block);
    }

    method PostBlock(startbuf: nat, endbuf: nat)
      requires posted == multiset{} && routs == 0
      modifies this`posted, this`routs
      ensures posted == multiset(WorkRequests(startbuf, endbuf, num_bufs))
      ensures routs == if startbuf <= endbuf then endbuf - startbuf else 0
    {
      var r := startbuf;
      hide WorkRequests;
      while r < endbuf
        invariant r == startbuf || startbuf < r <= endbuf
        invariant routs == r - startbuf
        invariant posted + multiset(WorkRequests(r, endbuf, num_bufs))
               == multiset(WorkRequests(startbuf, endbuf, num_bufs))
      {
        NextWorkRequest(r, endbuf, num_bufs);
        PostRecv(r + num_bufs);
        routs := routs + 1;
        r := r + 1;
      }
      NoWorkRequests(endbuf, r, num_bufs);
    }

    method PostRecv(wrId: nat)
      modifies this`posted
      ensures posted == old(posted) + multiset{wrId}
    {
      posted := posted + multiset{wrId};
    }

    /** Fails when the send queue is full; reports a completion only when asked to. */
    method PostSend(bufID: nat, srcQP: nat, signal: bool) returns (ok: bool)
      requires signalInterval > 0 && (signal <==> taken in Marks(signalInterval))
      modifies this`cq, this`replies
      ensures ok <==> taken - reclaimed <= rxDepth
      ensures replies == old(replies) + if ok then [Reply(bufID, srcQP)] else []
      ensures cq == old(cq) + if ok then Completion(taken, Marks(signalInterval)) else []
    {
      if taken - reclaimed > rxDepth {
        return false;
      }
      replies := replies + [Reply(bufID, srcQP)];
      if signal {
        cq := cq + [SendWc(taken)];
      }
      return true;
    }

    method PollCq(n: nat)
      requires Valid() && wc == []
      modifies this`cq, this`wc, this`reclaimed
      ensures Valid() && n >= |old(cq)| ==> cq == []
      ensures View() == Apply(old(View()), Poll(if n <= |old(cq)| then n else |old(cq)|),
                              Marks(signalInterval))
      ensures Valid()
    {
      var ne := if n <= |cq| then n else |cq|;
      InvPoll(View(), ne, block, Marks(signalInterval));
      reclaimed := LastSend(cq[..ne], reclaimed);
      wc, cq := cq[..ne], cq[ne..];
    }

    /** Handles the head of the batch. The send queue is never full. */
    method HandleHead()
      requires Valid() && wc != []
      modifies this
      ensures Valid() && View() == HandleOne(old(View()), Marks(signalInterval))
      ensures routs == old(routs)
      ensures replies == old(replies) + if old(wc[0]).RecvWc? then [Reply(old(wc[0].buf), old(wc[0].src))] else []
    {
      HandleOneKeepsInv(View(), block, Marks(signalInterval));
      match wc[0] {
        case SendWc(_) =>
          wc := wc[1..];
        case RecvWc(a, src) =>
          ServeReceive(a, src);
      }
    }

    /** `conn->rcnt++`, and whether the response is to be signalled. */
    method Count() returns (signal: bool)
      requires 0 < signalInterval && rcnt == taken % COUNTER_RANGE
      modifies this`rcnt, this`taken
      ensures taken == old(taken) + 1 && rcnt == taken % COUNTER_RANGE
      ensures signal <==> taken in Marks(signalInterval)
    {
      CountOne(taken, signalInterval);
      rcnt := (rcnt + 1) % COUNTER_RANGE;
      taken := taken + 1;
      signal := rcnt % signalInterval == 0;
    }

    /** Counts the receive, reposts its buffer and sends the response. */
    method ServeReceive(a: nat, srcQP: nat)
      requires Valid() && wc != [] && wc[0].RecvWc? && wc[0].buf == a
      modifies this
      ensures View() == HandleOne(old(View()), Marks(signalInterval))
      ensures rcnt == taken % COUNTER_RANGE && routs == old(routs)
      ensures replies == old(replies) + [Reply(a, srcQP)]
    {
      RoomToSend(View());
      ReceiveHandled(View(), Marks(signalInterval));
      hide Marks, Inv, MarkedSoon, HandleOne, ServeTaken, Apply;
      var signal := Count();
      routs := routs - 1;
      wc := wc[1..];
      PostRecv(a);
      routs := routs + 1;
      var success := PostSend(a, srcQP, signal);
      assert success;
    }

    lemma RoomToSend(s: Conn)
      requires Valid() && Inv(s, block, Marks(signalInterval))
      requires Rests(s) && s.batch != [] && s.batch[0].RecvWc?
      ensures s.taken + 1 - s.reclaimed <= rxDepth
    {
      var marks := Marks(signalInterval);
      HandleOneKeepsInv(s, block, marks);
      MarksAreSpaced(signalInterval);
      InvUnreclaimed(HandleOne(s, marks), block, marks, signalInterval);
    }

    /** The loop over the polled completions. */
    method HandleBatch()
      requires Valid()
      modifies this
      ensures Valid() && View() == HandleAll(old(View()), Marks(signalInterval))
      ensures routs == old(routs) && wc == [] && replies == old(replies) + RepliesTo(old(wc))
    {
      hide RepliesTo;
      while wc != []
        invariant Valid() && routs == old(routs)
        invariant replies + RepliesTo(wc) == old(replies) + RepliesTo(old(wc))
        invariant HandleAll(View(), Marks(signalInterval))
               == HandleAll(old(View()), Marks(signalInterval))
        decreases |wc|
      {
        NextReplies(replies, wc);
        HandleHead();
      }
      NoReplies(replies);
    }

    lemma NoReplies(before: seq<Reply>)
      ensures before + RepliesTo([]) == before
    {
    }

    lemma NextReplies(before: seq<Reply>, batch: seq<Wc>)
      requires batch != []
      ensures (before + if batch[0].RecvWc? then [Reply(batch[0].buf, batch[0].src)] else []) + RepliesTo(batch[1..])
           == before + RepliesTo(batch)
    {
    }
  }

  /** Handling a batch is a run of the protocol, so the bounds hold for this loop too. */
  lemma {:induction false} HandlingIsARun(block: set<nat>, s: Conn, marks: iset<nat>)
    requires Reachable(Arrival, block, s, marks) && Rests(s)
    ensures Reachable(Arrival, block, HandleAll(s, marks), marks)
    decreases |s.batch|
  {
    hide Reachable;
    if s.batch != [] {
      var t := Then(Arrival, block, s, Take, marks);
      if s.batch[0].RecvWc? {
        t := Then(Arrival, block, t, Serve(s.batch[0].buf), marks);
        t := Then(Arrival, block, t, Repost, marks);
        t := Then(Arrival, block, t, Send, marks);
      }
      HandlingIsARun(block, t, marks);
    }
  }

  /** Whether the constructor's loop for queue pair `id` posts buffer `r`. */
  ghost predicate PostedBy(id: nat, buffersPerQ: nat, r: nat) {
    var startbuf := U16(BlockStart(id, buffersPerQ));
    var endbuf := U16(startbuf + buffersPerQ);
    startbuf <= r < endbuf
  }

  ghost predicate Covered(numQueues: nat, buffersPerQ: nat, r: nat) {
    exists id :: 0 <= id < numQueues && PostedBy(id, buffersPerQ, r)
  }

  /** The queue pairs' blocks together post every buffer exactly when buffer indices fit in
      sixteen bits; with more buffers, buffer 0xFFFF is in no posted block. */
  lemma BlocksCoverIff(numQueues: nat, buffersPerQ: nat)
    requires numQueues > 0 && buffersPerQ > 0
    ensures (forall r: nat | r < numQueues * buffersPerQ :: Covered(numQueues, buffersPerQ, r))
       <==> numQueues * buffersPerQ <= 0xFFFF
  {
    if numQueues * buffersPerQ <= 0xFFFF {
      forall r: nat | r < numQueues * buffersPerQ ensures Covered(numQueues, buffersPerQ, r) {
        FindBlock(numQueues, buffersPerQ, r);
      }
    } else {
      assert !Covered(numQueues, buffersPerQ, 0xFFFF);
    }
  }

  lemma FindBlock(numQueues: nat, buffersPerQ: nat, r: nat)
    requires buffersPerQ > 0 && r < numQueues * buffersPerQ <= 0xFFFF
    ensures Covered(numQueues, buffersPerQ, r)
  {
    var id := r / buffersPerQ;
    assert r == id * buffersPerQ + r % buffersPerQ;
    Arithmetic.MulMono(numQueues, id, buffersPerQ);
    Arithmetic.MulMono(id, numQueues, buffersPerQ);
    assert PostedBy(id, buffersPerQ, r);
  }
}
