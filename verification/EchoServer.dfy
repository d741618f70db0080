/** An echo server on one queue pair, serving in order of arrival or in any order of its own:
    the sizes of the send queue and of the completion queue are enough. */
module EchoServer {
  import opened Arithmetic
  import opened Pipeline

  /** The order in which receives are served: as they come, or any. A priority server files
      them and picks by class. */
  datatype Order = Arrival | Any

  /** Where the service loop is: between completions, or with a receive in service. */
  datatype Pc = Idle | Serving(buf: nat) | Reposted(buf: nat)

  /** `batch` holds polled completions not handled yet, `filed` the buffers of receives that
      wait to be served. `taken` counts the receives that were or are being served;
      `reclaimed` is the number of the last send whose completion was polled, which frees the
      send queue slots of all sends up to it. */
  datatype Conn = Conn(posted: multiset<nat>, cq: seq<Wc>, batch: seq<Wc>, pc: Pc,
                       taken: nat, reclaimed: nat, filed: multiset<nat>)

  datatype Action = Arrive(buf: nat, src: nat) | Poll(n: nat) | Take | Serve(buf: nat) | Repost | Send

  ghost function Sent(s: Conn): int {
    if s.pc.Idle? then s.taken else s.taken - 1
  }

  ghost function Pipe(s: Conn): seq<Wc> {
    s.batch + s.cq
  }

  ghost function InHand(s: Conn): multiset<nat> {
    if s.pc.Serving? then multiset{s.pc.buf} else multiset{}
  }

  ghost predicate Enabled(order: Order, s: Conn, a: Action) {
    match a
    case Arrive(b, src) => b in s.posted
    case Poll(n) => s.pc.Idle? && s.batch == [] && n <= |s.cq| && (order.Arrival? ==> s.filed == multiset{})
    case Take => s.pc.Idle? && s.batch != [] && (order.Arrival? ==> s.filed == multiset{})
    case Serve(b) => s.pc.Idle? && b in s.filed
    case Repost => s.pc.Serving?
    case Send => s.pc.Reposted?
  }

  /** One atomic step of the network, the NIC or the server thread. */
  ghost function Apply(s: Conn, a: Action, marks: iset<nat>): Conn
    requires Enabled(Any, s, a)
  {
    match a
    case Arrive(b, src) => s.(posted := s.posted - multiset{b}, cq := s.cq + [RecvWc(b, src)])
    case Poll(n) => s.(batch := s.cq[..n], cq := s.cq[n..], reclaimed := LastSend(s.cq[..n], s.reclaimed))
    case Take =>
      (match s.batch[0]
       case SendWc(_) => s.(batch := s.batch[1..])
       case RecvWc(b, _) => s.(batch := s.batch[1..], filed := s.filed + multiset{b}))
    case Serve(b) => s.(pc := Serving(b), taken := s.taken + 1, filed := s.filed - multiset{b})
    case Repost => s.(posted := s.posted + multiset{s.pc.buf}, pc := Reposted(s.pc.buf))
    case Send =>
      s.(pc := Idle, cq := s.cq + Completion(s.taken, marks))
  }

  ghost predicate Legal(order: Order, s: Conn, steps: seq<Action>, marks: iset<nat>)
    decreases |steps|
  {
    steps == [] ||
    (Enabled(order, s, steps[0]) && Legal(order, Apply(s, steps[0], marks), steps[1..], marks))
  }

  ghost function After(order: Order, s: Conn, steps: seq<Action>, marks: iset<nat>): Conn
    requires Legal(order, s, steps, marks)
    decreases |steps|
  {
    if steps == [] then s else After(order, Apply(s, steps[0], marks), steps[1..], marks)
  }

  ghost function Start(block: set<nat>): Conn {
    Conn(multiset(block), [], [], Idle, 0, 0, multiset{})
  }

  ghost predicate Reachable(order: Order, block: set<nat>, s: Conn, marks: iset<nat>) {
    exists steps :: Legal(order, Start(block), steps, marks) && After(order, Start(block), steps, marks) == s
  }

  // ---- the invariant ----

  /** Each buffer is posted, held by a completion, filed, or being served. */
  ghost predicate Tokens(s: Conn, block: set<nat>) {
    s.posted + Held(Pipe(s)) + s.filed + InHand(s) == multiset(block)
  }

  /** Receives handled: served or filed. */
  ghost function Handled(s: Conn): nat {
    s.taken + |s.filed|
  }

  ghost predicate Inv(s: Conn, block: set<nat>, marks: iset<nat>)
  {
    && (!s.pc.Idle? ==> s.taken > 0)
    && Tokens(s, block)
    && OnTime(Pipe(s), Handled(s), |block|)
    && Sent(s) >= 0 && Reported(s.cq, s.reclaimed, Sent(s), marks)
  }

  lemma InvAtStart(block: set<nat>, marks: iset<nat>)
    ensures Inv(Start(block), block, marks)
  {
  }

  lemma InvArrive(s: Conn, b: nat, src: nat, block: set<nat>, marks: iset<nat>)
    requires Inv(s, block, marks) && Enabled(Any, s, Arrive(b, src))
    ensures Inv(Apply(s, Arrive(b, src), marks), block, marks)
  {
    hide OnTime, Held, Reported;
    var t := Apply(s, Arrive(b, src), marks);
    assert Pipe(t) == Pipe(s) + [RecvWc(b, src)];
    ArrivalJoins(Pipe(s), b, src, Handled(s), |block|);
    ReportArrival(s.cq, b, src, s.reclaimed, Sent(s), marks);
    TokenMoves(s.posted, Held(Pipe(s)), s.filed, InHand(s), b);
    assert Handled(t) == Handled(s) && Sent(t) == Sent(s) && InHand(t) == InHand(s);
    hide Pipe, Handled, Sent, InHand;
  }

  /** A buffer moves from the first place to the second. */
  lemma TokenMoves(x: multiset<nat>, y: multiset<nat>, z: multiset<nat>, h: multiset<nat>, b: nat)
    requires b in x
    ensures (x - multiset{b}) + (y + multiset{b}) + z + h == x + y + z + h
  {
  }

  lemma InvPoll(s: Conn, n: nat, block: set<nat>, marks: iset<nat>)
    requires Inv(s, block, marks) && Enabled(Any, s, Poll(n))
    ensures Inv(Apply(s, Poll(n), marks), block, marks)
  {
    var a, b := s.cq[..n], s.cq[n..];
    var t := Apply(s, Poll(n), marks);
    assert Pipe(s) == s.cq && Pipe(t) == a + b == s.cq;
    assert Handled(t) == Handled(s) && Sent(t) == Sent(s) && InHand(t) == InHand(s);
    hide OnTime, Held, Reported, Pipe, Handled, Sent, InHand, LastSend;
    ReportPolled(a, b, s.reclaimed, Sent(s), marks);
  }

  lemma InvTake(s: Conn, block: set<nat>, marks: iset<nat>)
    requires Inv(s, block, marks) && Enabled(Any, s, Take)
    ensures Inv(Apply(s, Take, marks), block, marks)
  {
    var t := Apply(s, Take, marks);
    var wc := s.batch[0];
    assert Pipe(s)[0] == wc && Pipe(s)[1..] == s.batch[1..] + s.cq == Pipe(t);
    HeadTaken(Pipe(s), Handled(s), |block|);
    hide OnTime, Held, Reported;
    assert Sent(t) == Sent(s) && InHand(t) == InHand(s);
    assert Handled(t) == Handled(s) + if wc.RecvWc? then 1 else 0;
    hide Pipe, Handled, Sent, InHand;
    if wc.RecvWc? {
      TokenFiled(s.posted, Held(Pipe(t)), s.filed, InHand(s), wc.buf);
    }
  }

  /** A buffer moves from the second place to the third. */
  lemma TokenFiled(x: multiset<nat>, y: multiset<nat>, z: multiset<nat>, h: multiset<nat>, b: nat)
    ensures x + y + (z + multiset{b}) + h == x + (multiset{b} + y) + z + h
  {
  }

  lemma InvServe(s: Conn, b: nat, block: set<nat>, marks: iset<nat>)
    requires Inv(s, block, marks) && Enabled(Any, s, Serve(b))
    ensures Inv(Apply(s, Serve(b), marks), block, marks)
  {
    hide OnTime, Held;
    assert s.filed == s.filed - multiset{b} + multiset{b};
  }

  lemma InvSend(s: Conn, block: set<nat>, marks: iset<nat>)
    requires Inv(s, block, marks) && Enabled(Any, s, Send)
    ensures Inv(Apply(s, Send, marks), block, marks)
  {
    var t := Apply(s, Send, marks);
    assert Pipe(t) == Pipe(s) + Completion(s.taken, marks);
    ReceivesFit(s, block);
    OnTimeNext(Pipe(s), Handled(s), s.taken, |block|, marks);
    ReportNext(s.cq, s.reclaimed, s.taken, marks);
  }

  /** Receive completions and filed receives hold distinct buffers, so there are no more of
      them than buffers. */
  lemma ReceivesFit(s: Conn, block: set<nat>)
    requires Tokens(s, block)
    ensures Receives(Pipe(s)) + |s.filed| <= |block|
  {
    assert |s.posted + Held(Pipe(s)) + s.filed + InHand(s)|
        == |s.posted| + |Held(Pipe(s))| + |s.filed| + |InHand(s)|;
  }

  lemma InvStep(s: Conn, a: Action, block: set<nat>, marks: iset<nat>)
    requires Inv(s, block, marks) && Enabled(Any, s, a)
    ensures Inv(Apply(s, a, marks), block, marks)
  {
    match a {
      case Arrive(b, src) => InvArrive(s, b, src, block, marks);
      case Poll(n) => InvPoll(s, n, block, marks);
      case Take => InvTake(s, block, marks);
      case Serve(b) => InvServe(s, b, block, marks);
      case Repost => hide OnTime, Held;
      case Send => InvSend(s, block, marks);
    }
  }

  lemma {:induction false} InvHolds(order: Order, s: Conn, steps: seq<Action>, block: set<nat>, marks: iset<nat>)
    requires Inv(s, block, marks) && Legal(order, s, steps, marks)
    ensures Inv(After(order, s, steps, marks), block, marks)
    decreases |steps|
  {
    if steps != [] {
      InvStep(s, steps[0], block, marks);
      hide Inv, Apply;
      InvHolds(order, Apply(s, steps[0], marks), steps[1..], block, marks);
    }
  }

  // ---- the bounds ----

  /** Sends whose slots in the send queue have not been freed. */
  ghost function Unreclaimed(s: Conn): int {
    Sent(s) - s.reclaimed
  }

  lemma InvBounds(s: Conn, block: set<nat>, marks: iset<nat>, gap: nat)
    requires Spaced(marks, gap) && Inv(s, block, marks)
    ensures Sends(s.cq) <= 1 + |block| / gap
  {
    OnTimeConcat(s.batch, s.cq, Handled(s), |block|);
    FewSends(s.cq, Handled(s) + Receives(s.batch), |block|, s.reclaimed, Sent(s), marks, gap);
  }

  lemma InvUnreclaimed(s: Conn, block: set<nat>, marks: iset<nat>, interval: nat)
    requires Inv(s, block, marks) && forall n: nat :: MarkedSoon(marks, n, interval)
    ensures Unreclaimed(s) <= interval + |block|
  {
    OnTimeConcat(s.batch, s.cq, Handled(s), |block|);
    assert MarkedSoon(marks, s.reclaimed, interval);
    var n :| s.reclaimed < n <= s.reclaimed + interval && n in marks;
    if n <= Sent(s) {
      RecentSend(s.cq, Handled(s) + Receives(s.batch), |block|, n);
    }
  }

  lemma {:induction false} RecentSend(pipe: seq<Wc>, due: nat, bufs: nat, n: nat)
    requires OnTime(pipe, due, bufs) && SendWc(n) in pipe
    ensures due <= n + bufs
  {
    if pipe[0] != SendWc(n) {
      RecentSend(pipe[1..], if pipe[0].RecvWc? then due + 1 else due, bufs, n);
    }
  }

  /** Whatever the order of service, in every reachable state at most `interval + buffers` sends
      are unreclaimed, and the completion queue holds at most `2 * buffers + 1` completions. */
  lemma QueuesNeverOverflow(order: Order, block: set<nat>, s: Conn, interval: nat)
    requires 0 < interval < COUNTER_RANGE && Reachable(order, block, s, Marks(interval))
    ensures Unreclaimed(s) <= interval + |block|
    ensures Receives(s.cq) <= |block|
    ensures Sends(s.cq) <= 1 + |block| / Gap(interval)
    ensures |s.cq| <= 2 * |block| + 1
  {
    ReachableInv(order, block, s, Marks(interval));
    BoundsOf(s, block, interval);
  }

  lemma ReachableInv(order: Order, block: set<nat>, s: Conn, marks: iset<nat>)
    requires Reachable(order, block, s, marks)
    ensures Inv(s, block, marks)
  {
    hide Inv;
    var steps :| Legal(order, Start(block), steps, marks) && After(order, Start(block), steps, marks) == s;
    InvAtStart(block, marks);
    InvHolds(order, Start(block), steps, block, marks);
  }

  lemma BoundsOf(s: Conn, block: set<nat>, interval: nat)
    requires 0 < interval < COUNTER_RANGE && Inv(s, block, Marks(interval))
    ensures Unreclaimed(s) <= interval + |block|
    ensures Receives(s.cq) <= |block|
    ensures Sends(s.cq) <= 1 + |block| / Gap(interval)
    ensures |s.cq| <= 2 * |block| + 1
  {
    hide Inv, Marks, Gap, MarkedSoon, Unreclaimed;
    var gap := Gap(interval);
    MarksAreSpaced(interval);
    InvBounds(s, block, Marks(interval), gap);
    InvUnreclaimed(s, block, Marks(interval), interval);
    ReceivesInCq(s, block, Marks(interval));
    CountsAll(s.cq);
    QuotientAtMost(|block|, gap);
  }

  lemma ReceivesInCq(s: Conn, block: set<nat>, marks: iset<nat>)
    requires Inv(s, block, marks)
    ensures Receives(s.cq) <= |block|
  {
    ReceivesFit(s, block);
    HeldConcat(s.batch, s.cq);
  }
}
