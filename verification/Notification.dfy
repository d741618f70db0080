/** The notification byte vector: the network sets a queue's byte when a request arrives, and
    one server thread scans the vector, clears the byte, polls the queue, serves, looks ahead
    for the next request, stashes it and sets the byte again. */
module Notification {
  import opened Pipeline

  /** A queue with its byte and its stash slot, in which 0 stands for NULL. `arrived` and
      `served` are histories. */
  datatype Queue = Queue(posted: multiset<nat>, cq: seq<Wc>, byte: bool,
                         stashBuf: nat, stashSrc: nat, taken: nat,
                         arrived: seq<Wc>, served: seq<Wc>)

  /** Where the server is with respect to a queue; `Out` while it scans or works elsewhere. */
  datatype Phase =
    | Out
    | Found                  // the scan saw the byte set
    | Cleared                // the byte is cleared
    | Polling                // the stash was NULL
    | Serving(buf: nat)
    | Sending                // the buffer is reposted
    | Looking(again: bool)   // the look-ahead, first or second try

  datatype QueueStep =
    | Arrive(buf: nat, src: nat) | Scan | Clear | TestStash | Poll | Repost | Send | Look

  datatype State = State(queues: seq<Queue>, connIndex: nat, phase: Phase)

  datatype Action = Do(q: nat, step: QueueStep)

  predicate StashValid(x: Queue) {
    x.stashBuf != 0 && x.stashSrc != 0
  }

  ghost predicate QueueEnabled(x: Queue, ph: Phase, a: QueueStep) {
    match a
    case Arrive(b, src) => b in x.posted && src != 0
    case Scan => ph.Out? && x.byte
    case Clear => ph.Found?
    case TestStash => ph.Cleared?
    case Poll => ph.Polling?
    case Repost => ph.Serving?
    case Send => ph.Sending?
    case Look => ph.Looking?
  }

  ghost function Take(x: Queue, wc: Wc): Queue {
    x.(taken := x.taken + 1, served := x.served + [wc])
  }

  ghost function QueueAfter(x: Queue, ph: Phase, a: QueueStep, marks: iset<nat>): (Queue, Phase)
    requires QueueEnabled(x, ph, a)
  {
    match a
    case Arrive(b, src) =>
      (x.(posted := x.posted - multiset{b}, cq := x.cq + [RecvWc(b, src)],
          arrived := x.arrived + [RecvWc(b, src)], byte := true), ph)
    case Scan => (x, Found)
    case Clear => (x.(byte := false), Cleared)
    case TestStash =>
      if StashValid(x) then (Take(x, RecvWc(x.stashBuf, x.stashSrc)), Serving(x.stashBuf))
      else (x, Polling)
    case Poll =>
      if x.cq == [] then (x, ph)
      else (match x.cq[0]
            case SendWc(_) => (x.(cq := x.cq[1..]), ph)
            case RecvWc(b, _) => (Take(x, x.cq[0]).(cq := x.cq[1..]), Serving(b)))
    case Repost => (x.(posted := x.posted + multiset{ph.buf}), Sending)
    case Send => (x.(cq := x.cq + Completion(x.taken, marks)), Looking(false))
    case Look =>
      if x.cq == [] then (x.(stashBuf := 0, stashSrc := 0), Out)
      else (match x.cq[0]
            case SendWc(_) => (x.(cq := x.cq[1..]), if ph.again then Out else Looking(true))
            case RecvWc(b, src) =>
              (x.(cq := x.cq[1..], byte := true, stashBuf := b, stashSrc := src), Out))
  }

  ghost function PhaseOf(s: State, q: nat): Phase {
    if q == s.connIndex then s.phase else Out
  }

  ghost predicate Enabled(s: State, a: Action) {
    && a.q < |s.queues|
    && (a.step.Arrive? || (if a.step.Scan? then s.phase.Out? else a.q == s.connIndex))
    && QueueEnabled(s.queues[a.q], PhaseOf(s, a.q), a.step)
  }

  ghost function Apply(s: State, a: Action, marks: iset<nat>): State
    requires Enabled(s, a)
  {
    var (x, ph) := QueueAfter(s.queues[a.q], PhaseOf(s, a.q), a.step, marks);
    if a.step.Arrive? then s.(queues := s.queues[a.q := x])
    else State(s.queues[a.q := x], a.q, ph)
  }

  ghost predicate Legal(s: State, steps: seq<Action>, marks: iset<nat>)
    decreases |steps|
  {
    steps == [] || (Enabled(s, steps[0]) && Legal(Apply(s, steps[0], marks), steps[1..], marks))
  }

  ghost function After(s: State, steps: seq<Action>, marks: iset<nat>): State
    requires Legal(s, steps, marks)
    decreases |steps|
  {
    if steps == [] then s else After(Apply(s, steps[0], marks), steps[1..], marks)
  }

  ghost function Fresh(block: set<nat>): Queue {
    Queue(multiset(block), [], false, 0, 0, 0, [], [])
  }

  ghost function Start(blocks: seq<set<nat>>): State {
    State(seq(|blocks|, q requires 0 <= q < |blocks| => Fresh(blocks[q])), 0, Out)
  }

  ghost predicate Reachable(blocks: seq<set<nat>>, s: State, marks: iset<nat>) {
    exists steps :: Legal(Start(blocks), steps, marks) && After(Start(blocks), steps, marks) == s
  }

  // ---- the invariant of one queue ----

  /** Whether the stash slot still counts: once its request is taken the slot keeps a stale
      copy until the look-ahead overwrites it. */
  ghost predicate Live(x: Queue, ph: Phase) {
    StashValid(x) && (ph.Out? || ph.Found? || ph.Cleared?)
  }

  /** The completions in the order they will be handled. */
  ghost function Pending(x: Queue, ph: Phase): seq<Wc> {
    if Live(x, ph) then [RecvWc(x.stashBuf, x.stashSrc)] + x.cq else x.cq
  }

  ghost function Requests(pipe: seq<Wc>): seq<Wc> {
    if pipe == [] then []
    else (if pipe[0].RecvWc? then [pipe[0]] else []) + Requests(pipe[1..])
  }

  ghost function Sent(x: Queue, ph: Phase): int {
    if ph.Serving? || ph.Sending? then x.taken - 1 else x.taken
  }

  ghost predicate Named(pipe: seq<Wc>) {
    forall w | w in pipe && w.RecvWc? :: w.src != 0
  }

  ghost function InHand(ph: Phase): multiset<nat> {
    if ph.Serving? then multiset{ph.buf} else multiset{}
  }

  /** Each buffer of the block is posted, held by a completion, or being served. */
  ghost predicate Tokens(posted: multiset<nat>, held: multiset<nat>, hand: multiset<nat>, block: set<nat>) {
    posted + held + hand == multiset(block)
  }

  /** Buffers are where they should be, and completions in good time. */
  ghost predicate Accounted(x: Queue, ph: Phase, block: set<nat>, marks: iset<nat>) {
    && 0 !in block && Sent(x, ph) >= 0
    && Tokens(x.posted, Held(Pending(x, ph)), InHand(ph), block)
    && OnTime(Pending(x, ph), x.taken, |block|)
    && Ascending(x.cq, 0, Sent(x, ph), marks)
    && Named(x.cq)
    && (ph.Looking? && ph.again ==> Sends(x.cq) == 0)
  }

  /** Nothing is lost, repeated or reordered. */
  ghost predicate InOrder(x: Queue, ph: Phase) {
    x.arrived == x.served + Requests(Pending(x, ph))
  }

  /** What the byte says. */
  ghost predicate Signs(x: Queue, ph: Phase) {
    var waiting := |Requests(Pending(x, ph))|;
    match ph
    case Out => x.byte <==> waiting > 0
    case Found => x.byte && waiting > 0
    case Cleared => waiting > 0 && (x.byte ==> waiting > 1)
    case Polling => waiting > 0 && (x.byte ==> waiting > 1)
    case _ => x.byte ==> waiting > 0
  }

  ghost predicate QueueInv(x: Queue, ph: Phase, block: set<nat>, marks: iset<nat>) {
    Accounted(x, ph, block, marks) && InOrder(x, ph) && Signs(x, ph)
  }

  lemma {:induction false} RequestsConcat(a: seq<Wc>, b: seq<Wc>)
    ensures Requests(a + b) == Requests(a) + Requests(b)
  {
    if a == [] {
      assert a + b == b;
    } else {
      assert (a + b)[0] == a[0] && (a + b)[1..] == a[1..] + b;
      RequestsConcat(a[1..], b);
      var first := if a[0].RecvWc? then [a[0]] else [];
      assert Requests(a + b) == first + (Requests(a[1..]) + Requests(b));
      assert Requests(a) == first + Requests(a[1..]);
    }
  }

  lemma {:induction false} RequestsCount(pipe: seq<Wc>)
    ensures |Requests(pipe)| == Receives(pipe)
    ensures Requests(pipe) == [] ==> forall w | w in pipe :: w.SendWc?
  {
    if pipe != [] {
      RequestsCount(pipe[1..]);
    }
  }

  lemma ArriveAccounted(x: Queue, ph: Phase, b: nat, src: nat, block: set<nat>, marks: iset<nat>)
    requires Accounted(x, ph, block, marks) && QueueEnabled(x, ph, Arrive(b, src))
    ensures var (y, qh) := QueueAfter(x, ph, Arrive(b, src), marks);
            && Accounted(y, qh, block, marks)
            && Pending(y, qh) == Pending(x, ph) + [RecvWc(b, src)]
  {
    hide OnTime, Ascending, Held, Sends, Named;
    var (y, qh) := QueueAfter(x, ph, Arrive(b, src), marks);
    assert Pending(y, ph) == Pending(x, ph) + [RecvWc(b, src)];
    ArrivalJoins(Pending(x, ph), b, src, x.taken, |block|);
    ArrivalAscends(x.cq, b, src, 0, Sent(x, ph), marks);
    NamedConcat(x.cq, [RecvWc(b, src)]);
  }

  lemma NamedConcat(a: seq<Wc>, b: seq<Wc>)
    ensures Named(a + b) <==> Named(a) && Named(b)
    ensures |b| == 1 && b[0].RecvWc? && b[0].src != 0 ==> Named(b)
    ensures b == [] || (|b| == 1 && b[0].SendWc?) ==> Named(b)
  {
    assert forall w :: w in a + b <==> w in a || w in b;
  }

  lemma KeepsArrive(x: Queue, ph: Phase, b: nat, src: nat, block: set<nat>, marks: iset<nat>)
    requires QueueInv(x, ph, block, marks) && QueueEnabled(x, ph, Arrive(b, src))
    ensures var (y, qh) := QueueAfter(x, ph, Arrive(b, src), marks);
            QueueInv(y, qh, block, marks)
  {
    hide Accounted, Pending;
    ArriveAccounted(x, ph, b, src, block, marks);
    RequestsConcat(Pending(x, ph), [RecvWc(b, src)]);
    assert [RecvWc(b, src)][1..] == [];
  }

  /** Receives hold distinct buffers. */
  lemma ReceivesFit(x: Queue, ph: Phase, block: set<nat>, marks: iset<nat>)
    requires Accounted(x, ph, block, marks)
    ensures Receives(Pending(x, ph)) <= |block|
  {
    var held, hand := Held(Pending(x, ph)), InHand(ph);
    assert |x.posted + held + hand| == |x.posted| + |held| + |hand|;
  }

  lemma SendAccounted(x: Queue, ph: Phase, block: set<nat>, marks: iset<nat>)
    requires Accounted(x, ph, block, marks) && QueueEnabled(x, ph, Send)
    ensures var (y, qh) := QueueAfter(x, ph, Send, marks);
            && Accounted(y, qh, block, marks)
            && Pending(y, qh) == Pending(x, ph) + Completion(x.taken, marks)
  {
    ReceivesFit(x, ph, block, marks);
    SendStepIs(x, ph, marks);
    hide QueueAfter, QueueEnabled, Pending, OnTime, Ascending, Held, Sends, Receives, Named, Tokens, Completion;
    OnTimeNext(x.cq, x.taken, x.taken, |block|, marks);
    AscendingNext(x.cq, 0, x.taken, marks);
    NamedNext(x.cq, x.taken, marks);
  }

  lemma SendStepIs(x: Queue, ph: Phase, marks: iset<nat>)
    requires QueueEnabled(x, ph, Send)
    ensures ph == Sending && Pending(x, ph) == x.cq
    ensures var y := x.(cq := x.cq + Completion(x.taken, marks));
            QueueAfter(x, ph, Send, marks) == (y, Looking(false)) && Pending(y, Looking(false)) == y.cq
  {
  }

  lemma NamedNext(cq: seq<Wc>, n: nat, marks: iset<nat>)
    ensures Named(cq + Completion(n, marks)) <==> Named(cq)
  {
    NamedConcat(cq, Completion(n, marks));
  }

  lemma KeepsSend(x: Queue, ph: Phase, block: set<nat>, marks: iset<nat>)
    requires QueueInv(x, ph, block, marks) && QueueEnabled(x, ph, Send)
    ensures var (y, qh) := QueueAfter(x, ph, Send, marks);
            QueueInv(y, qh, block, marks)
  {
    hide Accounted, Pending;
    SendAccounted(x, ph, block, marks);
    RequestsConcat(Pending(x, ph), Completion(x.taken, marks));
    NoRequests(x.taken, marks);
  }

  lemma NoRequests(n: nat, marks: iset<nat>)
    ensures Requests(Completion(n, marks)) == []
  {
    assert Completion(n, marks) != [] ==> Completion(n, marks)[1..] == [];
  }

  /** With marks further apart than there are buffers, one send completion waits at most. */
  lemma OneCompletion(x: Queue, ph: Phase, block: set<nat>, marks: iset<nat>, gap: nat)
    requires Accounted(x, ph, block, marks) && Spaced(marks, gap) && gap > |block|
    ensures Sends(x.cq) <= 1
  {
    hide Ascending, Held, Sends, Named, Tokens;
    PipeOnTime(x, ph, |block|);
    hide Pending, OnTime;
    FewSends(x.cq, if Live(x, ph) then x.taken + 1 else x.taken, |block|, 0, Sent(x, ph), marks, gap);
  }

  lemma PipeOnTime(x: Queue, ph: Phase, bufs: nat)
    requires OnTime(Pending(x, ph), x.taken, bufs)
    ensures OnTime(x.cq, if Live(x, ph) then x.taken + 1 else x.taken, bufs)
  {
    if Live(x, ph) {
      assert Pending(x, ph)[0] == RecvWc(x.stashBuf, x.stashSrc) && Pending(x, ph)[1..] == x.cq;
    }
  }

  lemma KeepsQuietStep(x: Queue, ph: Phase, a: QueueStep, block: set<nat>, marks: iset<nat>)
    requires QueueInv(x, ph, block, marks) && QueueEnabled(x, ph, a)
    requires a.Scan? || a.Clear? || a.Repost?
    ensures var (y, qh) := QueueAfter(x, ph, a, marks);
            QueueInv(y, qh, block, marks)
  {
    hide OnTime, Ascending, Held, Named;
    var (y, qh) := QueueAfter(x, ph, a, marks);
    assert Pending(y, qh) == Pending(x, ph);
  }

  lemma KeepsTestStash(x: Queue, ph: Phase, block: set<nat>, marks: iset<nat>)
    requires QueueInv(x, ph, block, marks) && QueueEnabled(x, ph, TestStash)
    ensures var (y, qh) := QueueAfter(x, ph, TestStash, marks);
            QueueInv(y, qh, block, marks)
  {
    hide OnTime, Ascending, Held, Requests, Sends, Named;
    if StashValid(x) {
      HeadIsReceive(x, ph, marks, x.stashBuf, x.stashSrc, x.cq, |block|);
    }
  }

  /** What taking the receive at the head of the pipe does to the pipe. */
  lemma HeadIsReceive(x: Queue, ph: Phase, marks: iset<nat>, b: nat, src: nat, rest: seq<Wc>,
                      bufs: nat)
    requires Pending(x, ph) == [RecvWc(b, src)] + rest
    requires OnTime(Pending(x, ph), x.taken, bufs)
    ensures OnTime(rest, x.taken + 1, bufs)
    ensures Held(Pending(x, ph)) == multiset{b} + Held(rest)
    ensures Requests(Pending(x, ph)) == [RecvWc(b, src)] + Requests(rest)
  {
    assert Pending(x, ph)[1..] == rest;
  }

  lemma HeadIsSend(x: Queue, ph: Phase, wc: Wc, rest: seq<Wc>, bufs: nat)
    requires wc.SendWc? && Pending(x, ph) == [wc] + rest
    requires OnTime(Pending(x, ph), x.taken, bufs)
    ensures OnTime(rest, x.taken, bufs)
    ensures Held(Pending(x, ph)) == Held(rest)
    ensures Requests(Pending(x, ph)) == Requests(rest)
    ensures Sends(rest) == Sends(Pending(x, ph)) - 1
  {
    assert Pending(x, ph)[1..] == rest;
  }

  lemma KeepsPoll(x: Queue, ph: Phase, block: set<nat>, marks: iset<nat>)
    requires QueueInv(x, ph, block, marks) && QueueEnabled(x, ph, Poll)
    ensures var (y, qh) := QueueAfter(x, ph, Poll, marks);
            QueueInv(y, qh, block, marks)
  {
    if x.cq != [] {
      match x.cq[0] {
        case RecvWc(b, src) => PollFindsReceive(x, ph, b, src, block, marks);
        case SendWc(_) => PollFindsSend(x, ph, block, marks);
      }
    }
  }

  /** A send completion at the head goes away, in a phase that has no buffer in hand. */
  lemma SendGone(x: Queue, y: Queue, ph: Phase, qh: Phase, block: set<nat>, marks: iset<nat>)
    requires Accounted(x, ph, block, marks) && x.cq != [] && x.cq[0].SendWc? && y == x.(cq := x.cq[1..])
    requires Pending(x, ph) == x.cq && Pending(y, qh) == y.cq
    requires InHand(ph) == InHand(qh) && Sent(x, ph) == Sent(y, qh)
    requires qh.Looking? && qh.again ==> Sends(x.cq) <= 1
    ensures Accounted(y, qh, block, marks) && Requests(y.cq) == Requests(x.cq)
  {
    hide Pending, OnTime, Ascending, Held, Requests, Sends, Named, Tokens, InHand, Sent;
    var wc := x.cq[0];
    assert x.cq == [wc] + y.cq;
    NamedConcat([wc], y.cq);
    AscendingLowers(x.cq, 0, Sent(x, ph), marks);
    HeadIsSend(x, ph, wc, y.cq, |block|);
  }

  lemma PollFindsSend(x: Queue, ph: Phase, block: set<nat>, marks: iset<nat>)
    requires QueueInv(x, ph, block, marks) && QueueEnabled(x, ph, Poll)
    requires x.cq != [] && x.cq[0].SendWc?
    ensures var (y, qh) := QueueAfter(x, ph, Poll, marks);
            QueueInv(y, qh, block, marks)
  {
    PollStepIs(x, ph, marks);
    hide QueueAfter, QueueEnabled, Pending, Requests, Accounted;
    SendGone(x, x.(cq := x.cq[1..]), ph, Polling, block, marks);
  }

  lemma PollFindsReceive(x: Queue, ph: Phase, b: nat, src: nat, block: set<nat>, marks: iset<nat>)
    requires QueueInv(x, ph, block, marks) && QueueEnabled(x, ph, Poll)
    requires x.cq != [] && x.cq[0] == RecvWc(b, src)
    ensures var (y, qh) := QueueAfter(x, ph, Poll, marks);
            QueueInv(y, qh, block, marks)
  {
    var rest := x.cq[1..];
    PollStepIs(x, ph, marks);
    hide QueueAfter, QueueEnabled, Pending, Requests, Accounted;
    ReceiveTaken(x, b, src, block, marks);
    assert x.arrived == (x.served + [RecvWc(b, src)]) + Requests(rest);
  }

  lemma ReceiveTaken(x: Queue, b: nat, src: nat, block: set<nat>, marks: iset<nat>)
    requires Accounted(x, Polling, block, marks) && x.cq != [] && x.cq[0] == RecvWc(b, src)
    ensures var y := Take(x, x.cq[0]).(cq := x.cq[1..]);
            && Accounted(y, Serving(b), block, marks)
            && Requests(x.cq) == [RecvWc(b, src)] + Requests(y.cq)
  {
    var rest := x.cq[1..];
    var y := Take(x, x.cq[0]).(cq := rest);
    assert x.cq == [RecvWc(b, src)] + rest;
    assert y.posted == x.posted && y.cq == rest && y.taken == x.taken + 1;
    assert Pending(x, Polling) == x.cq && Pending(y, Serving(b)) == rest;
    assert Sent(x, Polling) == Sent(y, Serving(b)) == x.taken;
    assert InHand(Polling) == multiset{} && InHand(Serving(b)) == multiset{b};
    hide OnTime, Ascending, Held, Requests, Sends, Named, Tokens, Take, Pending, Sent, InHand, Live;
    NamedConcat([RecvWc(b, src)], rest);
    AscendingLowers(x.cq, 0, x.taken, marks);
    HeadIsReceive(x, Polling, marks, b, src, rest, |block|);
    TokensTaken(x.posted, Held(rest), b, block);
  }

  lemma TokensTaken(posted: multiset<nat>, held: multiset<nat>, b: nat, block: set<nat>)
    ensures Tokens(posted, multiset{b} + held, multiset{}, block) ==> Tokens(posted, held, multiset{b}, block)
  {
    assert posted + (multiset{b} + held) + multiset{} == posted + held + multiset{b};
  }

  lemma PollStepIs(x: Queue, ph: Phase, marks: iset<nat>)
    requires QueueEnabled(x, ph, Poll) && x.cq != []
    ensures ph == Polling && Pending(x, ph) == x.cq
    ensures match x.cq[0]
            case SendWc(_) =>
              var y := x.(cq := x.cq[1..]);
              QueueAfter(x, ph, Poll, marks) == (y, Polling) && Pending(y, Polling) == y.cq
            case RecvWc(b, _) =>
              var y := Take(x, x.cq[0]).(cq := x.cq[1..]);
              QueueAfter(x, ph, Poll, marks) == (y, Serving(b)) && Pending(y, Serving(b)) == y.cq
  {
  }

  lemma KeepsLook(x: Queue, ph: Phase, block: set<nat>, marks: iset<nat>, gap: nat)
    requires QueueInv(x, ph, block, marks) && QueueEnabled(x, ph, Look)
    requires Spaced(marks, gap) && gap > |block|
    ensures var (y, qh) := QueueAfter(x, ph, Look, marks);
            QueueInv(y, qh, block, marks)
  {
    OneCompletion(x, ph, block, marks, gap);
    if x.cq == [] {
      LookFindsNothing(x, ph, block, marks);
    } else if x.cq[0].SendWc? {
      LookFindsSend(x, ph, block, marks);
    } else {
      LookFindsReceive(x, ph, block, marks);
    }
  }

  lemma LookFindsNothing(x: Queue, ph: Phase, block: set<nat>, marks: iset<nat>)
    requires QueueInv(x, ph, block, marks) && QueueEnabled(x, ph, Look) && x.cq == []
    ensures var (y, qh) := QueueAfter(x, ph, Look, marks);
            QueueInv(y, qh, block, marks)
  {
    hide OnTime, Ascending, Held, Tokens;
    var (y, qh) := QueueAfter(x, ph, Look, marks);
    assert Pending(y, qh) == Pending(x, ph);
  }

  lemma LookFindsSend(x: Queue, ph: Phase, block: set<nat>, marks: iset<nat>)
    requires QueueInv(x, ph, block, marks) && QueueEnabled(x, ph, Look) && Sends(x.cq) <= 1
    requires x.cq != [] && x.cq[0].SendWc?
    ensures var (y, qh) := QueueAfter(x, ph, Look, marks);
            QueueInv(y, qh, block, marks)
  {
    NoSecondTry(x, ph, block, marks);
    LookStepIs(x, ph, marks);
    hide QueueAfter, QueueEnabled, Pending, Requests, Accounted, Sends;
    SendGone(x, x.(cq := x.cq[1..]), ph, Looking(true), block, marks);
  }

  lemma NoSecondTry(x: Queue, ph: Phase, block: set<nat>, marks: iset<nat>)
    requires Accounted(x, ph, block, marks) && x.cq != [] && x.cq[0].SendWc?
    ensures ph != Looking(true)
  {
    hide OnTime, Ascending, Held, Named, Tokens;
  }

  lemma LookStepIs(x: Queue, ph: Phase, marks: iset<nat>)
    requires QueueEnabled(x, ph, Look) && x.cq != [] && x.cq[0].SendWc? && ph != Looking(true)
    ensures ph == Looking(false) && Pending(x, ph) == x.cq
    ensures var y := x.(cq := x.cq[1..]);
            QueueAfter(x, ph, Look, marks) == (y, Looking(true)) && Pending(y, Looking(true)) == y.cq
  {
  }

  lemma LookFindsReceive(x: Queue, ph: Phase, block: set<nat>, marks: iset<nat>)
    requires QueueInv(x, ph, block, marks) && QueueEnabled(x, ph, Look)
    requires x.cq != [] && x.cq[0].RecvWc?
    ensures var (y, qh) := QueueAfter(x, ph, Look, marks);
            QueueInv(y, qh, block, marks)
  {
    HeadHasBuffer(x, ph, block, marks);
    StashStepIs(x, ph, marks);
    var rest := x.cq[1..];
    assert x.cq == [x.cq[0]] + rest;
    hide QueueAfter, QueueEnabled, Pending, OnTime, Ascending, Held, Requests, Sends, Named, Tokens;
    NamedConcat([x.cq[0]], rest);
    AscendingLowers(x.cq, 0, x.taken, marks);
  }

  /** A receive at the head names a buffer and a sender. */
  lemma HeadHasBuffer(x: Queue, ph: Phase, block: set<nat>, marks: iset<nat>)
    requires Accounted(x, ph, block, marks) && ph.Looking? && x.cq != [] && x.cq[0].RecvWc?
    ensures x.cq[0].buf != 0 && x.cq[0].src != 0
  {
    assert Pending(x, ph) == x.cq;
    assert x.cq[0] in x.cq;
    assert x.cq[0].buf in Held(x.cq);
    hide OnTime, Ascending, Sends, Held;
    assert x.cq[0].buf in multiset(block);
  }

  lemma StashStepIs(x: Queue, ph: Phase, marks: iset<nat>)
    requires QueueEnabled(x, ph, Look) && x.cq != [] && x.cq[0].RecvWc?
    requires x.cq[0].buf != 0 && x.cq[0].src != 0
    ensures ph.Looking? && Pending(x, ph) == x.cq
    ensures var y := x.(cq := x.cq[1..], byte := true, stashBuf := x.cq[0].buf, stashSrc := x.cq[0].src);
            QueueAfter(x, ph, Look, marks) == (y, Out) && Pending(y, Out) == x.cq
  {
    assert [x.cq[0]] + x.cq[1..] == x.cq;
  }

  lemma KeepsQueueInv(x: Queue, ph: Phase, a: QueueStep, block: set<nat>, marks: iset<nat>, gap: nat)
    requires QueueInv(x, ph, block, marks) && QueueEnabled(x, ph, a)
    requires Spaced(marks, gap) && gap > |block|
    ensures var (y, qh) := QueueAfter(x, ph, a, marks);
            QueueInv(y, qh, block, marks)
  {
    hide QueueInv;
    match a {
      case Arrive(b, src) => KeepsArrive(x, ph, b, src, block, marks);
      case Send => KeepsSend(x, ph, block, marks);
      case Look => KeepsLook(x, ph, block, marks, gap);
      case TestStash => KeepsTestStash(x, ph, block, marks);
      case Poll => KeepsPoll(x, ph, block, marks);
      case _ => KeepsQuietStep(x, ph, a, block, marks);
    }
  }

  // ---- every run ----

  ghost predicate Inv(s: State, blocks: seq<set<nat>>, marks: iset<nat>) {
    && |s.queues| == |blocks|
    && forall q | 0 <= q < |blocks| :: QueueInv(s.queues[q], PhaseOf(s, q), blocks[q], marks)
  }

  ghost predicate SmallBlocks(blocks: seq<set<nat>>, gap: nat) {
    forall q | 0 <= q < |blocks| :: |blocks[q]| < gap && 0 !in blocks[q]
  }

  lemma {:induction false} InvHolds(s: State, steps: seq<Action>, blocks: seq<set<nat>>,
                                    marks: iset<nat>, gap: nat)
    requires Spaced(marks, gap) && SmallBlocks(blocks, gap)
    requires Inv(s, blocks, marks) && Legal(s, steps, marks)
    ensures Inv(After(s, steps, marks), blocks, marks)
    decreases |steps|
  {
    hide QueueInv, QueueAfter, QueueEnabled;
    if steps != [] {
      var a := steps[0];
      KeepsQueueInv(s.queues[a.q], PhaseOf(s, a.q), a.step, blocks[a.q], marks, gap);
      ArriveKeepsPhase(s.queues[a.q], PhaseOf(s, a.q), a.step, marks);
      var t := Apply(s, a, marks);
      assert Inv(t, blocks, marks);
      InvHolds(t, steps[1..], blocks, marks, gap);
    }
  }

  lemma ArriveKeepsPhase(x: Queue, ph: Phase, a: QueueStep, marks: iset<nat>)
    requires QueueEnabled(x, ph, a)
    ensures a.Arrive? ==> QueueAfter(x, ph, a, marks).1 == ph
    ensures a.Scan? ==> ph.Out?
  {
  }

  lemma StartInv(blocks: seq<set<nat>>, marks: iset<nat>)
    requires forall q | 0 <= q < |blocks| :: 0 !in blocks[q]
    ensures Inv(Start(blocks), blocks, marks)
  {
    forall q | 0 <= q < |blocks|
      ensures QueueInv(Fresh(blocks[q]), Out, blocks[q], marks) {
    }
  }

  lemma ReachableInv(s: State, blocks: seq<set<nat>>, marks: iset<nat>, gap: nat)
    requires Spaced(marks, gap) && SmallBlocks(blocks, gap) && Reachable(blocks, s, marks)
    ensures Inv(s, blocks, marks)
  {
    hide QueueInv;
    var steps :| Legal(Start(blocks), steps, marks) && After(Start(blocks), steps, marks) == s;
    StartInv(blocks, marks);
    InvHolds(Start(blocks), steps, blocks, marks, gap);
  }

  /** The protocol's promises, for a state at any moment of a run. */
  ghost predicate Sound(s: State) {
    forall q | 0 <= q < |s.queues| :: SoundQueue(s.queues[q], PhaseOf(s, q))
  }

  ghost predicate SoundQueue(x: Queue, ph: Phase) {
    // each request is served at most once, in order of arrival
    && x.served <= x.arrived
    // what is not served yet is in the stash or in the completion queue
    && x.arrived == x.served + Requests(Pending(x, ph))
    // between iterations the byte is set exactly when a request is waiting
    && (ph.Out? ==> (x.byte <==> StashValid(x) || exists w :: w in x.cq && w.RecvWc?))
    // a poll that waits for a request finds it within two tries
    && (ph.Polling? ==> x.cq != [] && (x.cq[0].RecvWc? || (|x.cq| > 1 && x.cq[1].RecvWc?)))
  }

  lemma {:induction false} SomeRequest(pipe: seq<Wc>)
    ensures Requests(pipe) != [] <==> exists w :: w in pipe && w.RecvWc?
  {
    if pipe != [] {
      SomeRequest(pipe[1..]);
      assert forall w :: w in pipe <==> w == pipe[0] || w in pipe[1..];
    }
  }

  lemma InvIsSound(x: Queue, ph: Phase, block: set<nat>, marks: iset<nat>, gap: nat)
    requires QueueInv(x, ph, block, marks) && Spaced(marks, gap) && gap > |block|
    ensures SoundQueue(x, ph)
  {
    SomeRequest(x.cq);
    OneCompletion(x, ph, block, marks, gap);
    if ph.Out? && Live(x, ph) {
      assert Requests(Pending(x, ph)) == [RecvWc(x.stashBuf, x.stashSrc)] + Requests(x.cq) by {
        assert Pending(x, ph)[1..] == x.cq;
      }
    }
    if ph.Polling? && !x.cq[0].RecvWc? {
      RequestsCount(x.cq);
      SomeRequest(x.cq[1..]);
      assert Sends(x.cq[1..]) == 0;
    }
  }

  /** No wakeup is lost and no request is served twice, when completions are signalled further
      apart than a queue has buffers. */
  lemma NotificationIsSound(blocks: seq<set<nat>>, s: State, marks: iset<nat>, gap: nat)
    requires Spaced(marks, gap) && SmallBlocks(blocks, gap)
    requires Reachable(blocks, s, marks)
    ensures Sound(s)
  {
    ReachableInv(s, blocks, marks, gap);
    hide QueueInv;
    forall q | 0 <= q < |s.queues| ensures SoundQueue(s.queues[q], PhaseOf(s, q)) {
      InvIsSound(s.queues[q], PhaseOf(s, q), blocks[q], marks, gap);
    }
  }

  /** So when the scan finds no byte set, every request that has arrived has been served, each once
      and in order. */
  lemma QuietMeansServed(blocks: seq<set<nat>>, s: State, marks: iset<nat>, gap: nat)
    requires Spaced(marks, gap) && SmallBlocks(blocks, gap) && Reachable(blocks, s, marks)
    requires s.phase.Out? && forall q | 0 <= q < |s.queues| :: !s.queues[q].byte
    ensures forall q | 0 <= q < |s.queues| :: s.queues[q].served == s.queues[q].arrived
  {
    NotificationIsSound(blocks, s, marks, gap);
    hide Reachable;
    forall q | 0 <= q < |s.queues| ensures s.queues[q].served == s.queues[q].arrived {
      var x := s.queues[q];
      assert SoundQueue(x, PhaseOf(s, q));
      SomeRequest(x.cq);
      assert Requests(Pending(x, Out)) == [];
    }
  }
}
