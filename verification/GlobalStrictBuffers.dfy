/** Buffers are conserved under every interleaving, although they move between queue pairs,
    and what a service reads in its buffer is what the request was filed under. */
module GlobalStrictBuffers {
  import opened Pipeline
  import opened Bags
  import opened GlobalStrict
  import opened GlobalStrictOrder
  import D = Dispatch

  ghost function BufferOf(x: D.RecvReq): multiset<nat> {
    multiset{x.bufID}
  }

  ghost function ListBag(queue: seq<D.RecvReq>): multiset<nat> {
    Sum(queue, BufferOf)
  }

  /** The buffer of the request a thread has in hand. */
  ghost function InHand(pc: Pc): multiset<nat> {
    match pc
    case ToFile(_, x) => multiset{x.bufID}
    case Indexing(_, x) => multiset{x.bufID}
    case Appending(_, x) => multiset{x.bufID}
    case Erasing(_, x) => multiset{x.bufID}
    case Leaving(_, x) => multiset{x.bufID}
    case Serving(_, x) => multiset{x.bufID}
    case _ => multiset{}
  }

  ghost function QpBag(qp: Qp): multiset<nat> {
    qp.posted + Held(qp.cq) + qp.lost
  }

  ghost function ThreadBag(th: Thread): multiset<nat> {
    Held(th.batch) + InHand(th.pc)
  }

  ghost function GroupBag(group: Group): multiset<nat> {
    Sum(group.metaCQ, ListBag)
  }

  ghost function All(s: State): multiset<nat> {
    Sum(s.qps, QpBag) + Sum(s.threads, ThreadBag) + Sum(s.groups, GroupBag)
  }

  ghost function LocalBag(l: Local): multiset<nat> {
    QpBag(l.qp) + ThreadBag(l.thread) + GroupBag(l.group)
  }

  /** The blocks of the queue pairs are disjoint and make up `bufs`. */
  ghost predicate Partition(blocks: seq<set<nat>>, bufs: set<nat>) {
    Sum(blocks, BlockBag) == multiset(bufs)
  }

  ghost function BlockBag(block: set<nat>): multiset<nat> {
    multiset(block)
  }

  ghost predicate Setup(cfg: Config, blocks: seq<set<nat>>, bufs: set<nat>) {
    ValidConfig(cfg) && |blocks| == cfg.qps && Partition(blocks, bufs)
  }

  // ---- conservation ----

  lemma HeldSplit(cq: seq<Wc>, k: nat)
    requires k <= |cq|
    ensures Held(cq[..k]) + Held(cq[k..]) == Held(cq)
  {
    hide Held;
    assert cq[..k] + cq[k..] == cq;
    HeldConcat(cq[..k], cq[k..]);
  }

  lemma AppendKeeps(l: Local, c: nat, x: D.RecvReq)
    requires c < |l.group.metaCQ| && l.thread.pc == Appending(c, x)
    ensures LocalBag(Append(l, c, x)) == LocalBag(l)
  {
    hide Held, Sum;
    var qs := l.group.metaCQ;
    var queue := qs[c] + [x];
    SumReplace(qs, ListBag, c, queue);
    SumAppend(qs[c], BufferOf, x);
    Gain(Sum(qs, ListBag), Sum(qs[c := queue], ListBag), ListBag(qs[c]), ListBag(queue), x.bufID);
    assert GroupBag(Append(l, c, x).group) == GroupBag(l.group) + multiset{x.bufID};
  }

  lemma FirstOfList(queue: seq<D.RecvReq>)
    requires queue != []
    ensures ListBag(queue) == ListBag(queue[1..]) + multiset{queue[0].bufID}
  {
  }

  lemma PopKeeps(l: Local, c: nat)
    requires c < |l.group.metaCQ| && l.group.metaCQ[c] != [] && l.thread.pc == Popping(c)
    ensures LocalBag(Pop(l, c)) == LocalBag(l)
  {
    hide Held, Sum;
    var qs := l.group.metaCQ;
    var queue := qs[c];
    SumReplace(qs, ListBag, c, queue[1..]);
    FirstOfList(queue);
    Gain(Sum(qs[c := queue[1..]], ListBag), Sum(qs, ListBag), ListBag(queue[1..]), ListBag(queue), queue[0].bufID);
    assert GroupBag(l.group) == GroupBag(Pop(l, c).group) + multiset{queue[0].bufID};
  }

  lemma FirstOfBatch(batch: seq<Wc>)
    requires batch != []
    ensures Held(batch) == Held(batch[1..]) + if batch[0].RecvWc? then multiset{batch[0].buf} else multiset{}
  {
  }

  lemma HandleKeeps(l: Local, headers: seq<Header>)
    requires l.thread.pc.Handling?
    ensures LocalBag(Handle(l, headers)) == LocalBag(l)
  {
    hide Held, QpBag, GroupBag;
    if l.thread.batch != [] {
      FirstOfBatch(l.thread.batch);
      assert ThreadBag(Handle(l, headers).thread) == ThreadBag(l.thread);
    }
  }

  lemma PollKeeps(l: Local, k: nat)
    requires l.thread.pc.Polling? && l.thread.batch == [] && k <= |l.qp.cq|
    ensures LocalBag(l.(qp := Polled(l.qp, k), thread := Thread(Handling, l.qp.cq[..k])))
         == LocalBag(l)
  {
    HeldSplit(l.qp.cq, k);
    assert Held([]) == multiset{};
    hide Held, Sum;
  }

  lemma ServeKeeps(l: Local, c: nat, x: D.RecvReq, rxDepth: nat)
    requires l.thread.pc == Serving(c, x)
    ensures LocalBag(l.(qp := Repost(l.qp, x.bufID, rxDepth), thread := l.thread.(pc := Sending(x)))) == LocalBag(l)
  {
    hide Held, GroupBag;
    RepostAdds(l.qp, x.bufID, rxDepth);
    assert ThreadBag(l.thread) == ThreadBag(l.thread.(pc := Sending(x))) + multiset{x.bufID};
    Shift(QpBag(l.qp), ThreadBag(l.thread.(pc := Sending(x))), GroupBag(l.group), x.bufID);
    hide QpBag, ThreadBag, Repost;
  }

  lemma RepostAdds(qp: Qp, b: nat, rxDepth: nat)
    ensures QpBag(Repost(qp, b, rxDepth)) == QpBag(qp) + multiset{b}
  {
    hide Held;
  }

  lemma SendKeeps(l: Local, mode: Mode, report: seq<Wc>)
    requires l.thread.pc.Sending? && LocalEnabled(l, mode, report)
    ensures LocalBag(l.(qp := Answered(l.qp, report), thread := l.thread.(pc := Polling)))
         == LocalBag(l)
  {
    hide Held, Sum;
    ReportHoldsNone(l.qp.cq, report);
    assert QpBag(Answered(l.qp, report)) == QpBag(l.qp);
    assert ThreadBag(l.thread.(pc := Polling)) == ThreadBag(l.thread);
    hide QpBag, ThreadBag, GroupBag;
  }

  lemma ReportHoldsNone(cq: seq<Wc>, report: seq<Wc>)
    requires report == [] || (|report| == 1 && report[0].SendWc?)
    ensures Held(cq + report) == Held(cq)
  {
    HeldConcat(cq, report);
    assert report == [] || report[1..] == [];
  }

  /** Same places, same buffers. */
  lemma SamePlaces(l: Local, l': Local)
    requires l'.qp == l.qp && l'.thread.batch == l.thread.batch
    requires InHand(l'.thread.pc) == InHand(l.thread.pc) && l'.group.metaCQ == l.group.metaCQ
    ensures LocalBag(l') == LocalBag(l)
  {
  }

  predicate MovesNothing(pc: Pc) {
    pc.ToFile? || pc.Indexing? || pc.Filed? || pc.ToPop? || pc.Testing? || pc.Erasing?
    || pc.Leaving? || pc.LeavingEmpty?
  }

  /** No step of a thread makes or loses a buffer. */
  lemma MoveKeeps(l: Local, t: nat, headers: seq<Header>, mode: Mode, report: seq<Wc>)
    requires LocalEnabled(l, mode, report) && InRange(l)
    ensures LocalBag(LocalMove(l, t, headers, mode, report)) == LocalBag(l)
  {
    hide LocalBag;
    if MovesNothing(l.thread.pc) {
      hide Append, Pop, Handle;
      SamePlaces(l, LocalMove(l, t, headers, mode, report));
    } else {
      hide Append, Pop, Handle, Test, Erase;
      match l.thread.pc {
        case Polling => PollKeeps(l, if |l.qp.cq| < mode.pollLimit then |l.qp.cq| else mode.pollLimit);
        case Handling => HandleKeeps(l, headers);
        case Appending(c, x) => AppendKeeps(l, c, x);
        case Popping(c) => PopKeeps(l, c);
        case Serving(c, x) => ServeKeeps(l, c, x, mode.rxDepth);
        case Sending(_) => SendKeeps(l, mode, report);
      }
    }
  }

  /** A batch is handled to its end before the next poll, and classes name lists. */
  ghost predicate InRange(l: Local) {
    && (l.thread.batch == [] || !BetweenBatches(l.thread.pc))
    && (l.thread.pc.Appending? ==> l.thread.pc.c < |l.group.metaCQ|)
    && (l.thread.pc.Popping? ==> l.thread.pc.c < |l.group.metaCQ| && l.group.metaCQ[l.thread.pc.c] != [])
  }

  predicate BetweenBatches(pc: Pc) {
    !(pc.Handling? || pc.ToFile? || pc.Indexing? || pc.Appending? || pc.Filed?)
  }

  lemma ArriveKeeps(qp: Qp, b: nat, src: nat)
    requires b in qp.posted
    ensures QpBag(Received(qp, b, src)) == QpBag(qp)
  {
    HeldConcat(qp.cq, [RecvWc(b, src)]);
    assert [RecvWc(b, src)][1..] == [];
    assert Held([RecvWc(b, src)]) == multiset{b};
    hide Held;
  }

  /** If three rows each change in one place and the three places keep their sum, so do the
      rows. */
  lemma ThreeRows(a: multiset<nat>, b: multiset<nat>, c: multiset<nat>,
                  a': multiset<nat>, b': multiset<nat>, c': multiset<nat>,
                  x: multiset<nat>, y: multiset<nat>, z: multiset<nat>,
                  x': multiset<nat>, y': multiset<nat>, z': multiset<nat>)
    requires a' + x == a + x' && b' + y == b + y' && c' + z == c + z'
    requires x + y + z == x' + y' + z'
    ensures a' + b' + c' == a + b + c
  {
    forall k ensures (a' + b' + c')[k] == (a + b + c)[k] {
      assert (a' + x)[k] == (a + x')[k] && (b' + y)[k] == (b + y')[k] && (c' + z)[k] == (c + z')[k];
      assert (x + y + z)[k] == (x' + y' + z')[k];
    }
  }

  lemma Conserved(cfg: Config, s: State, a: Action)
    requires Shaped(cfg, s) && Enabled(cfg, s, a)
    requires a.Move? ==> InRange(LocalOf(cfg, s, a.t))
    ensures All(Apply(cfg, s, a)) == All(s)
  {
    hide Sum, QpBag, ThreadBag, GroupBag;
    var s' := Apply(cfg, s, a);
    match a {
      case Arrive(q, b, h) =>
        var qp := Received(s.qps[q], b, h.src);
        ArriveKeeps(s.qps[q], b, h.src);
        SumReplace(s.qps, QpBag, q, qp);
        Cancel(Sum(s'.qps, QpBag), Sum(s.qps, QpBag), QpBag(qp));
      case Move(t, report) =>
        var q, g := cfg.qpOf[t], cfg.groupOf[t];
        var l := LocalOf(cfg, s, t);
        var l' := LocalMove(l, t, s.headers, cfg.mode, report);
        MoveKeeps(l, t, s.headers, cfg.mode, report);
        hide LocalMove, LocalEnabled;
        SumReplace(s.qps, QpBag, q, l'.qp);
        SumReplace(s.threads, ThreadBag, t, l'.thread);
        SumReplace(s.groups, GroupBag, g, l'.group);
        ThreeRows(Sum(s.qps, QpBag), Sum(s.threads, ThreadBag), Sum(s.groups, GroupBag),
                  Sum(s'.qps, QpBag), Sum(s'.threads, ThreadBag), Sum(s'.groups, GroupBag),
                  QpBag(l.qp), ThreadBag(l.thread), GroupBag(l.group),
                  QpBag(l'.qp), ThreadBag(l'.thread), GroupBag(l'.group));
    }
  }

  // ---- what the buffers say ----

  /** The buffer of a request still carries the class it was filed under and its sender. */
  ghost predicate Tells(headers: seq<Header>, n: nat, c: nat, x: D.RecvReq) {
    && x.bufID < |headers| && c < n
    && Priority(headers[x.bufID]) == c && headers[x.bufID].src == x.srcQP
  }

  ghost predicate WcTells(headers: seq<Header>, n: nat, w: Wc) {
    w.RecvWc? ==> w.buf < |headers| && Tells(headers, n, Priority(headers[w.buf]), D.RecvReq(w.buf, w.src))
  }

  ghost predicate AllTell(headers: seq<Header>, n: nat, cq: seq<Wc>) {
    forall w | w in cq :: WcTells(headers, n, w)
  }

  ghost predicate PcTells(headers: seq<Header>, n: nat, pc: Pc) {
    match pc
    case ToFile(c, x) => Tells(headers, n, c, x)
    case Indexing(c, x) => Tells(headers, n, c, x)
    case Appending(c, x) => Tells(headers, n, c, x)
    case Erasing(c, x) => Tells(headers, n, c, x)
    case Leaving(c, x) => Tells(headers, n, c, x)
    case Serving(c, x) => Tells(headers, n, c, x)
    case _ => true
  }

  ghost predicate ThreadTells(headers: seq<Header>, n: nat, th: Thread) {
    AllTell(headers, n, th.batch) && PcTells(headers, n, th.pc)
  }

  ghost predicate ListsTell(headers: seq<Header>, n: nat, lists: D.Queues) {
    forall c, i | 0 <= c < |lists| && 0 <= i < |lists[c]| :: Tells(headers, n, c, lists[c][i])
  }

  ghost predicate LocalTells(headers: seq<Header>, n: nat, l: Local) {
    && AllTell(headers, n, l.qp.cq) && ThreadTells(headers, n, l.thread)
    && ListsTell(headers, n, l.group.metaCQ)
  }

  lemma AppendTells(l: Local, headers: seq<Header>, n: nat, c: nat, x: D.RecvReq)
    requires LocalTells(headers, n, l) && Tells(headers, n, c, x)
    ensures LocalTells(headers, n, Append(l, c, x))
  {
    hide Tells, WcTells;
  }

  lemma PopTells(l: Local, headers: seq<Header>, n: nat, c: nat)
    requires LocalTells(headers, n, l)
    ensures LocalTells(headers, n, Pop(l, c))
  {
    hide Tells, WcTells;
  }

  lemma HandleTells(l: Local, headers: seq<Header>, n: nat)
    requires LocalTells(headers, n, l) && l.thread.pc.Handling?
    ensures LocalTells(headers, n, Handle(l, headers))
  {
    if l.thread.batch != [] {
      assert l.thread.batch[0] in l.thread.batch;
      assert forall w | w in l.thread.batch[1..] :: w in l.thread.batch;
    }
    hide Tells, ListsTell;
  }

  lemma MoveTells(l: Local, t: nat, headers: seq<Header>, mode: Mode, report: seq<Wc>, n: nat)
    requires LocalEnabled(l, mode, report) && LocalTells(headers, n, l)
    ensures LocalTells(headers, n, LocalMove(l, t, headers, mode, report))
  {
    hide Tells, Append, Pop, Handle, ListsTell;
    match l.thread.pc {
      case Handling => HandleTells(l, headers, n);
      case Appending(c, x) => AppendTells(l, headers, n, c, x);
      case Popping(c) => PopTells(l, headers, n, c);
      case _ =>
    }
  }

  ghost predicate Told(cfg: Config, s: State)
    requires Shaped(cfg, s)
  {
    && (forall q | 0 <= q < |s.qps| :: AllTell(s.headers, cfg.priorities, s.qps[q].cq))
    && (forall t | 0 <= t < |s.threads| :: ThreadTells(s.headers, cfg.priorities, s.threads[t]))
    && (forall g | 0 <= g < |s.groups| :: ListsTell(s.headers, cfg.priorities, s.groups[g].metaCQ))
  }

  lemma MoveKeepsTold(cfg: Config, s: State, t: nat, report: seq<Wc>)
    requires Shaped(cfg, s) && Told(cfg, s) && Enabled(cfg, s, Move(t, report))
    ensures Told(cfg, Apply(cfg, s, Move(t, report)))
  {
    MoveTells(LocalOf(cfg, s, t), t, s.headers, cfg.mode, report, cfg.priorities);
    hide LocalMove, LocalEnabled, AllTell, ThreadTells, ListsTell;
  }

  lemma NoTwoCopies(bufs: set<nat>, qps: multiset<nat>, threads: multiset<nat>, groups: multiset<nat>,
                    b: nat)
    requires qps + threads + groups == multiset(bufs)
    ensures qps[b] <= 1 && (qps[b] > 0 ==> b !in threads && b !in groups)
  {
    assert (qps + threads + groups)[b] == qps[b] + threads[b] + groups[b];
    assert multiset(bufs)[b] <= 1;
  }

  /** A posted buffer is in no queue pair's completions. */
  lemma PostedIsNotReceived(qps: seq<Qp>, q: nat, p: nat, b: nat)
    requires Sum(qps, QpBag)[b] <= 1 && q < |qps| && p < |qps| && b in qps[q].posted
    ensures b !in Held(qps[p].cq)
  {
    if p == q {
      SumHolds(qps, QpBag, q);
    } else if p < q {
      SumHoldsBoth(qps, QpBag, p, q);
    } else {
      SumHoldsBoth(qps, QpBag, q, p);
    }
    hide Held, Sum;
  }

  /** A posted buffer is nowhere else. */
  lemma PostedIsFree(s: State, bufs: set<nat>, q: nat, b: nat)
    requires All(s) == multiset(bufs) && q < |s.qps| && b in s.qps[q].posted
    ensures forall p | 0 <= p < |s.qps| :: b !in Held(s.qps[p].cq)
    ensures forall t | 0 <= t < |s.threads| :: b !in ThreadBag(s.threads[t])
    ensures forall g | 0 <= g < |s.groups| :: b !in GroupBag(s.groups[g])
  {
    hide Held, Sum, GroupBag, ThreadBag;
    NoTwoCopies(bufs, Sum(s.qps, QpBag), Sum(s.threads, ThreadBag), Sum(s.groups, GroupBag), b);
    SumHolds(s.qps, QpBag, q);
    assert b in QpBag(s.qps[q]);
    hide QpBag;
    forall p | 0 <= p < |s.qps| ensures b !in Held(s.qps[p].cq) {
      PostedIsNotReceived(s.qps, q, p, b);
    }
    forall t | 0 <= t < |s.threads| ensures b !in ThreadBag(s.threads[t]) {
      SumHolds(s.threads, ThreadBag, t);
    }
    forall g | 0 <= g < |s.groups| ensures b !in GroupBag(s.groups[g]) {
      SumHolds(s.groups, GroupBag, g);
    }
  }

  lemma {:induction false} HeldHolds(cq: seq<Wc>, w: Wc)
    requires w in cq && w.RecvWc?
    ensures w.buf in Held(cq)
  {
    if cq[0] != w {
      HeldHolds(cq[1..], w);
    }
  }

  lemma StillAllTell(headers: seq<Header>, n: nat, cq: seq<Wc>, b: nat, h: Header)
    requires AllTell(headers, n, cq) && b !in Held(cq) && b < |headers|
    ensures AllTell(headers[b := h], n, cq)
  {
    forall w | w in cq ensures WcTells(headers[b := h], n, w) {
      if w.RecvWc? {
        HeldHolds(cq, w);
      }
    }
  }

  lemma StillThreadTells(headers: seq<Header>, n: nat, th: Thread, b: nat, h: Header)
    requires ThreadTells(headers, n, th) && b !in ThreadBag(th) && b < |headers|
    ensures ThreadTells(headers[b := h], n, th)
  {
    hide AllTell, Held;
    StillAllTell(headers, n, th.batch, b, h);
  }

  lemma StillListsTell(headers: seq<Header>, n: nat, group: Group, b: nat, h: Header)
    requires ListsTell(headers, n, group.metaCQ) && b !in GroupBag(group) && b < |headers|
    ensures ListsTell(headers[b := h], n, group.metaCQ)
  {
    var lists := group.metaCQ;
    forall c, i | 0 <= c < |lists| && 0 <= i < |lists[c]| ensures Tells(headers[b := h], n, c, lists[c][i]) {
      SumHolds(lists[c], BufferOf, i);
      SumHolds(lists, ListBag, c);
      assert Tells(headers, n, c, lists[c][i]);
    }
  }

  lemma ReceivedTells(s: State, q: nat, b: nat, h: Header, n: nat)
    requires q < |s.qps| && b < |s.headers| && Priority(h) < n
    requires AllTell(s.headers[b := h], n, s.qps[q].cq)
    ensures AllTell(s.headers[b := h], n, Received(s.qps[q], b, h.src).cq)
  {
  }

  lemma ArriveKeepsTold(cfg: Config, s: State, bufs: set<nat>, q: nat, b: nat, h: Header)
    requires Shaped(cfg, s) && Told(cfg, s) && Enabled(cfg, s, Arrive(q, b, h))
    requires All(s) == multiset(bufs)
    ensures Told(cfg, Apply(cfg, s, Arrive(q, b, h)))
  {
    PostedIsFree(s, bufs, q, b);
    var s' := Apply(cfg, s, Arrive(q, b, h));
    var n := cfg.priorities;
    hide Held, ThreadBag, GroupBag, All, ThreadTells, ListsTell;
    StillAllTell(s.headers, n, s.qps[q].cq, b, h);
    ReceivedTells(s, q, b, h, n);
    hide AllTell, Received;
    forall p | 0 <= p < |s.qps| ensures AllTell(s'.headers, n, s'.qps[p].cq) {
      StillAllTell(s.headers, n, s.qps[p].cq, b, h);
    }
    forall t | 0 <= t < |s.threads| ensures ThreadTells(s'.headers, n, s.threads[t]) {
      StillThreadTells(s.headers, n, s.threads[t], b, h);
    }
    forall g | 0 <= g < |s.groups| ensures ListsTell(s'.headers, n, s.groups[g].metaCQ) {
      StillListsTell(s.headers, n, s.groups[g], b, h);
    }
  }

  // ---- every reachable state ----

  ghost predicate BatchesFinish(s: State) {
    forall t | 0 <= t < |s.threads| :: s.threads[t].batch == [] || !BetweenBatches(s.threads[t].pc)
  }

  ghost predicate Inv(cfg: Config, bufs: set<nat>, s: State) {
    && Shaped(cfg, s)
    && Ordered(cfg, s) && BatchesFinish(s) && Told(cfg, s)
    && All(s) == multiset(bufs)
  }

  lemma BatchStep(l: Local, t: nat, headers: seq<Header>, mode: Mode, report: seq<Wc>)
    requires LocalEnabled(l, mode, report) && (l.thread.batch == [] || !BetweenBatches(l.thread.pc))
    ensures var th := LocalMove(l, t, headers, mode, report).thread;
            th.batch == [] || !BetweenBatches(th.pc)
  {
  }

  lemma ThreadInRange(cfg: Config, s: State, bufs: set<nat>, t: nat)
    requires Inv(cfg, bufs, s) && t < |s.threads|
    ensures InRange(LocalOf(cfg, s, t))
    ensures s.threads[t].pc.Indexing? ==> s.threads[t].pc.c < cfg.priorities
  {
    hide All, Sequential;
    assert ThreadTells(s.headers, cfg.priorities, s.threads[t]);
    if HoldsLock(s.threads[t].pc) {
      assert PcAt(s, cfg.groupOf[t]) == s.threads[t].pc;
    }
  }

  lemma BatchesStep(cfg: Config, s: State, a: Action)
    requires Shaped(cfg, s) && BatchesFinish(s) && Enabled(cfg, s, a)
    ensures BatchesFinish(Apply(cfg, s, a))
  {
    if a.Move? {
      BatchStep(LocalOf(cfg, s, a.t), a.t, s.headers, cfg.mode, a.report);
      hide LocalMove, LocalEnabled;
    }
  }

  lemma ToldStep(cfg: Config, bufs: set<nat>, s: State, a: Action)
    requires Shaped(cfg, s) && Told(cfg, s) && Enabled(cfg, s, a) && All(s) == multiset(bufs)
    ensures Told(cfg, Apply(cfg, s, a))
  {
    hide Told, Apply, All;
    match a {
      case Arrive(q, b, h) => ArriveKeepsTold(cfg, s, bufs, q, b, h);
      case Move(t, report) => MoveKeepsTold(cfg, s, t, report);
    }
  }

  lemma InvStep(cfg: Config, bufs: set<nat>, s: State, a: Action)
    requires Inv(cfg, bufs, s) && Enabled(cfg, s, a)
    ensures Inv(cfg, bufs, Apply(cfg, s, a))
  {
    if a.Move? {
      ThreadInRange(cfg, s, bufs, a.t);
    }
    hide Apply, Told, Ordered, All, InRange, BatchesFinish;
    BatchesStep(cfg, s, a);
    ToldStep(cfg, bufs, s, a);
    Conserved(cfg, s, a);
    OrderedStep(cfg, s, a);
  }

  lemma {:induction false} InvHolds(cfg: Config, bufs: set<nat>, s: State, steps: seq<Action>)
    requires Inv(cfg, bufs, s) && Legal(cfg, s, steps)
    ensures Inv(cfg, bufs, After(cfg, s, steps))
    decreases |steps|
  {
    if steps != [] {
      InvStep(cfg, bufs, s, steps[0]);
      hide Inv, Enabled;
      InvHolds(cfg, bufs, Apply(cfg, s, steps[0]), steps[1..]);
    }
  }

  lemma {:induction false} BlocksAreBags(blocks: seq<set<nat>>)
    ensures var qps := seq(|blocks|, q requires 0 <= q < |blocks| => Qp(multiset(blocks[q]), [], 0, multiset{}, 0, 0));
            Sum(qps, QpBag) == Sum(blocks, BlockBag)
  {
    if blocks != [] {
      var rest := blocks[1..];
      BlocksAreBags(rest);
      var qps := seq(|blocks|, q requires 0 <= q < |blocks| => Qp(multiset(blocks[q]), [], 0, multiset{}, 0, 0));
      assert qps[1..] == seq(|rest|, q requires 0 <= q < |rest| => Qp(multiset(rest[q]), [], 0, multiset{}, 0, 0));
    }
  }

  lemma StartBag(cfg: Config, blocks: seq<set<nat>>, headers: seq<Header>, bufs: set<nat>)
    requires Partition(blocks, bufs)
    ensures All(Start(cfg, blocks, headers)) == multiset(bufs)
  {
    BlocksAreBags(blocks);
    var s := Start(cfg, blocks, headers);
    SumEmpty(s.threads, ThreadBag);
    forall group | group in s.groups ensures GroupBag(group) == multiset{} {
      SumEmpty(group.metaCQ, ListBag);
    }
    SumEmpty(s.groups, GroupBag);
    hide Sum;
  }

  lemma StartGroupOk(n: nat)
    ensures GroupOk(Group(seq(n, _ => []), {}, FREE, [], []), Polling, n)
  {
    var lists: D.Queues := seq(n, _ => []);
    assert lists == Idle(n).queues;
    assert D.Backlogged(lists) == {};
  }

  lemma StartInv(cfg: Config, blocks: seq<set<nat>>, headers: seq<Header>, bufs: set<nat>)
    requires Setup(cfg, blocks, bufs)
    ensures Inv(cfg, bufs, Start(cfg, blocks, headers))
  {
    hide Sequential, All;
    StartBag(cfg, blocks, headers, bufs);
    StartGroupOk(cfg.priorities);
  }

  lemma ReachableInv(cfg: Config, blocks: seq<set<nat>>, headers: seq<Header>, bufs: set<nat>, s: State)
    requires Setup(cfg, blocks, bufs)
    requires Reachable(cfg, blocks, headers, s)
    ensures Inv(cfg, bufs, s)
  {
    hide Inv;
    StartInv(cfg, blocks, headers, bufs);
    var start := Start(cfg, blocks, headers);
    var steps :| Legal(cfg, start, steps) && After(cfg, start, steps) == s;
    InvHolds(cfg, bufs, start, steps);
  }

  /** Each group is a sequential strict priority queue: the requests it holds and the services
      it gave are those of one, fed the filings and services in the order they took effect. */
  lemma GroupsAreLinearizable(cfg: Config, blocks: seq<set<nat>>, headers: seq<Header>, bufs: set<nat>,
                              s: State, g: nat)
    requires Setup(cfg, blocks, bufs)
    requires Reachable(cfg, blocks, headers, s) && g < |s.groups|
    ensures D.Admissible(cfg.priorities, s.groups[g].events)
    ensures var idle := D.State(seq(cfg.priorities, _ => []), -1, 0);
            && D.Run(D.Strict, idle, s.groups[g].events).queues == s.groups[g].metaCQ
            && D.Outputs(D.Strict, idle, s.groups[g].events) == s.groups[g].services
    ensures s.groups[g].holder == FREE ==> s.groups[g].skipList == D.Backlogged(s.groups[g].metaCQ)
  {
    ReachableInv(cfg, blocks, headers, bufs, s);
    assert Idle(cfg.priorities) == D.State(seq(cfg.priorities, _ => []), -1, 0);
    assert GroupOk(s.groups[g], PcAt(s, g), cfg.priorities);
  }

  ghost predicate CanMove(cfg: Config, s: State, t: nat)
    requires Shaped(cfg, s)
  {
    exists report :: Enabled(cfg, s, Move(t, report))
  }

  /** Hence each class of a group is served first come, first served across all threads. */
  lemma GroupServesInTurn(cfg: Config, blocks: seq<set<nat>>, headers: seq<Header>, bufs: set<nat>,
                          s: State, g: nat, c: nat)
    requires Setup(cfg, blocks, bufs)
    requires Reachable(cfg, blocks, headers, s) && g < |s.groups| && c < cfg.priorities
    ensures c < |s.groups[g].metaCQ|
    ensures D.OfClass(s.groups[g].services, c) + s.groups[g].metaCQ[c] == D.Arrivals(s.groups[g].events, c)
  {
    GroupsAreLinearizable(cfg, blocks, headers, bufs, s, g);
    D.FifoWithinClass(D.Strict, D.State(seq(cfg.priorities, _ => []), -1, 0), s.groups[g].events, c);
  }

  /** No two threads of a group are in the critical section, the assertion holds wherever it
      is reached, and whoever holds the lock can go on. */
  lemma LockIsSafe(cfg: Config, blocks: seq<set<nat>>, headers: seq<Header>, bufs: set<nat>, s: State)
    requires Setup(cfg, blocks, bufs)
    requires Reachable(cfg, blocks, headers, s)
    ensures forall t, u | 0 <= t < u < |s.threads| && cfg.groupOf[t] == cfg.groupOf[u] ::
              !(HoldsLock(s.threads[t].pc) && HoldsLock(s.threads[u].pc))
    ensures forall t | 0 <= t < |s.threads| :: !s.threads[t].pc.AssertionFailed?
    ensures Shaped(cfg, s)
    ensures forall t | 0 <= t < |s.threads| :: CanMove(cfg, s, t) ||
              exists u :: 0 <= u < |s.threads| && cfg.groupOf[u] == cfg.groupOf[t] && CanMove(cfg, s, u)
  {
    hide All, Told, Sequential;
    ReachableInv(cfg, blocks, headers, bufs, s);
    forall t | 0 <= t < |s.threads| ensures !s.threads[t].pc.AssertionFailed? {
      var g := cfg.groupOf[t];
      assert GroupOk(s.groups[g], PcAt(s, g), cfg.priorities);
    }
    forall t | 0 <= t < |s.threads| && !CanMove(cfg, s, t)
      ensures exists u :: 0 <= u < |s.threads| && cfg.groupOf[u] == cfg.groupOf[t] && CanMove(cfg, s, u) {
      var holder := s.groups[cfg.groupOf[t]].holder;
      SomeReport(cfg, s, t);
      assert holder != FREE;
      SomeReport(cfg, s, holder);
    }
  }

  /** Only the lock can hold a thread up. */
  lemma SomeReport(cfg: Config, s: State, t: nat)
    requires Shaped(cfg, s) && t < |s.threads| && !s.threads[t].pc.AssertionFailed?
    ensures CanMove(cfg, s, t) || (!HoldsLock(s.threads[t].pc) && s.groups[cfg.groupOf[t]].holder != FREE)
  {
    var qp := s.qps[cfg.qpOf[t]];
    var report := match cfg.mode.signalling
      case Every(interval) => if Signalled(qp.rcnt, interval) then [SendWc(qp.sent + 1)] else []
      case AnyTime => [];
    hide Signalled;
    assert Reports(qp, cfg.mode, report);
    if LocalEnabled(LocalOf(cfg, s, t), cfg.mode, report) {
      assert Enabled(cfg, s, Move(t, report));
    }
  }

  /** Every buffer is in exactly one place. */
  lemma BuffersAreConserved(cfg: Config, blocks: seq<set<nat>>, headers: seq<Header>, bufs: set<nat>,
                            s: State)
    requires Setup(cfg, blocks, bufs)
    requires Reachable(cfg, blocks, headers, s)
    ensures Sum(s.qps, QpBag) + Sum(s.threads, ThreadBag) + Sum(s.groups, GroupBag) == multiset(bufs)
    ensures forall q | 0 <= q < |s.qps| :: |s.qps[q].posted| + Receives(s.qps[q].cq) <= |bufs|
  {
    ReachableInv(cfg, blocks, headers, bufs, s);
    forall q | 0 <= q < |s.qps| ensures |s.qps[q].posted| + Receives(s.qps[q].cq) <= |bufs| {
      SumHolds(s.qps, QpBag, q);
      hide Sum;
      Part(s.qps[q].posted + Held(s.qps[q].cq), multiset(bufs));
    }
  }

  /** The class and the sender read in the buffer at service are the class the request was
      filed under and the sender it came from. */
  lemma ServiceReadsItsRequest(cfg: Config, blocks: seq<set<nat>>, headers: seq<Header>, bufs: set<nat>,
                               s: State, t: nat)
    requires Setup(cfg, blocks, bufs)
    requires Reachable(cfg, blocks, headers, s) && t < |s.threads| && s.threads[t].pc.Serving?
    ensures s.threads[t].pc.x.bufID < |s.headers|
    ensures var h := s.headers[s.threads[t].pc.x.bufID];
            Priority(h) == s.threads[t].pc.c && h.src == s.threads[t].pc.x.srcQP
  {
    hide All, Ordered;
    ReachableInv(cfg, blocks, headers, bufs, s);
    assert ThreadTells(s.headers, cfg.priorities, s.threads[t]);
  }
}
