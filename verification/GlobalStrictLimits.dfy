/** Buffers may gather: in some run every buffer of a group ends up posted at one queue pair, as
    far as its receive queue has room, and its completion queue then needs room for them. */
module GlobalStrictLimits {
  import opened Pipeline
  import opened Bags
  import opened GlobalStrict
  import opened GlobalStrictBuffers
  import opened GlobalStrictGroups
  import D = Dispatch

  datatype World = World(cfg: Config, blocks: seq<set<nat>>, headers: seq<Header>)

  lemma {:induction false} OneMore(cfg: Config, s: State, steps: seq<Action>, a: Action)
    requires Shaped(cfg, s) && Legal(cfg, s, steps) && Enabled(cfg, After(cfg, s, steps), a)
    ensures Legal(cfg, s, steps + [a])
    ensures After(cfg, s, steps + [a]) == Apply(cfg, After(cfg, s, steps), a)
    decreases |steps|
  {
    hide Enabled, Apply, Shaped;
    if steps == [] {
      assert steps + [a] == [a] && [a][1..] == [];
    } else {
      assert (steps + [a])[1..] == steps[1..] + [a];
      OneMore(cfg, Apply(cfg, s, steps[0]), steps[1..], a);
    }
  }

  /** `s` can be reached from the start. */
  ghost predicate Reached(w: World, s: State) {
    && ValidConfig(w.cfg) && |w.blocks| == w.cfg.qps && Shaped(w.cfg, s)
    && Reachable(w.cfg, w.blocks, w.headers, s)
  }

  lemma Next(w: World, s: State, a: Action)
    requires Reached(w, s) && Enabled(w.cfg, s, a)
    ensures Reached(w, Apply(w.cfg, s, a))
  {
    hide Enabled, Apply;
    var start := Start(w.cfg, w.blocks, w.headers);
    var steps :| Legal(w.cfg, start, steps) && After(w.cfg, start, steps) == s;
    OneMore(w.cfg, start, steps, a);
  }

  ghost predicate At(w: World, s: State, t: nat, l: Local) {
    Shaped(w.cfg, s) && t < |s.threads| && Reached(w, Put(w.cfg, s, t, l))
  }

  lemma Here(w: World, s: State, t: nat)
    requires Reached(w, s) && t < |s.threads|
    ensures At(w, s, t, LocalOf(w.cfg, s, t))
  {
    assert Put(w.cfg, s, t, LocalOf(w.cfg, s, t)) == s;
  }

  lemma Moves(w: World, s: State, t: nat, l: Local, report: seq<Wc>, l': Local)
    requires At(w, s, t, l) && LocalEnabled(l, w.cfg.mode, report)
    requires l' == LocalMove(l, t, s.headers, w.cfg.mode, report)
    ensures At(w, s, t, l')
  {
    hide LocalMove, LocalEnabled, Reachable;
    var r := Put(w.cfg, s, t, l);
    assert LocalOf(w.cfg, r, t) == l;
    Next(w, r, Move(t, report));
    assert Apply(w.cfg, r, Move(t, report)) == Put(w.cfg, s, t, l');
  }

  const HIGHEST := Header(0, 0, 0)

  lemma HighestIsFirst()
    ensures Priority(HIGHEST) == 0 && HIGHEST.src == 0
  {
  }

  /** A request of the highest class arrives in buffer `b`. */
  ghost function Arrived(s: State, q: nat, b: nat): State
    requires q < |s.qps| && b < |s.headers|
  {
    s.(qps := s.qps[q := Received(s.qps[q], b, 0)], headers := s.headers[b := HIGHEST])
  }

  lemma Arrives(w: World, s: State, q: nat, b: nat)
    requires Reached(w, s) && q < |s.qps| && b in s.qps[q].posted && b < |s.headers|
    requires w.cfg.priorities > 0
    ensures Reached(w, Arrived(s, q, b))
  {
    hide Reachable, Received;
    HighestIsFirst();
    hide Priority;
    Next(w, s, Arrive(q, b, HIGHEST));
  }

  const IDLE := Thread(Polling, [])

  ghost predicate EmptyGroup(g: Group, n: nat) {
    && g.holder == FREE && g.skipList == {} && |g.metaCQ| == n
    && forall c | 0 <= c < n :: g.metaCQ[c] == []
  }

  /** The group holds just the request in buffer `b`. */
  ghost predicate HoldsOne(g: Group, n: nat, b: nat) {
    && g.holder == FREE && g.skipList == {0} && |g.metaCQ| == n > 0
    && g.metaCQ[0] == [D.RecvReq(b, 0)]
    && forall c | 0 < c < n :: g.metaCQ[c] == []
  }

  lemma HandleIs(l: Local, h: seq<Header>, b: nat)
    requires b < |h| && Priority(h[b]) == 0 && l.thread == Thread(Handling, [RecvWc(b, 0)])
    ensures Handle(l, h) == l.(thread := Thread(ToFile(0, D.RecvReq(b, 0)), []))
  {
    hide Priority;
    assert [RecvWc(b, 0)][1..] == [];
  }

  lemma AppendIs(l: Local, b: nat)
    requires |l.group.metaCQ| > 0 && l.group.metaCQ[0] == [] && l.thread.batch == []
    ensures var x := D.RecvReq(b, 0);
            Append(l, 0, x)
            == Local(l.qp, Thread(Filed, []), l.group.(metaCQ := l.group.metaCQ[0 := [x]],
                                                       events := l.group.events + [D.Arrive(0, x)]))
  {
    assert [] + [D.RecvReq(b, 0)] == [D.RecvReq(b, 0)];
  }

  /** A polled request is filed. */
  lemma FileIt(w: World, s: State, t: nat, l: Local, b: nat) returns (g: Group)
    requires At(w, s, t, l) && w.cfg.priorities > 0
    requires l.thread == Thread(ToFile(0, D.RecvReq(b, 0)), []) && EmptyGroup(l.group, w.cfg.priorities)
    ensures HoldsOne(g, w.cfg.priorities, b)
    ensures At(w, s, t, Local(l.qp, Thread(ToPop, []), g))
  {
    hide At;
    var x := D.RecvReq(b, 0);
    var l3 := l.(thread := Thread(Indexing(0, x), []), group := l.group.(holder := t));
    Moves(w, s, t, l, [], l3);
    var l4 := l3.(thread := Thread(Appending(0, x), []), group := l3.group.(skipList := {0}));
    Moves(w, s, t, l3, [], l4);
    AppendIs(l4, b);
    hide Append;
    var l5 := l4.(thread := Thread(Filed, []),
                  group := l4.group.(metaCQ := l.group.metaCQ[0 := [x]],
                                     events := l.group.events + [D.Arrive(0, x)]));
    Moves(w, s, t, l4, [], l5);
    g := l5.group.(holder := FREE);
    var l6 := l5.(thread := Thread(Handling, []), group := g);
    Moves(w, s, t, l5, [], l6);
    NothingToHandle(l6, s.headers);
    hide Handle;
    Moves(w, s, t, l6, [], l6.(thread := Thread(ToPop, [])));
  }

  /** A poll that finds a single completion takes it. */
  lemma PolledAlone(qp: Qp, wc: Wc)
    requires qp.cq == [wc]
    ensures qp.cq[..1] == [wc]
    ensures Polled(qp, 1) == qp.(cq := [], reclaimed := if wc.SendWc? then wc.number else qp.reclaimed)
  {
    assert qp.cq[..1] == [wc] && [wc][1..] == [];
    assert LastSend([wc], qp.reclaimed) == LastSend([], if wc.SendWc? then wc.number else qp.reclaimed);
  }

  /** From a poll that finds the receive of buffer `b` to the point of serving. */
  lemma PollAndFile(w: World, s: State, t: nat, b: nat) returns (g: Group)
    requires Reached(w, s) && t < |s.threads| && w.cfg.mode.pollLimit > 0 && w.cfg.priorities > 0
    requires s.threads[t] == IDLE && s.qps[w.cfg.qpOf[t]].cq == [RecvWc(b, 0)]
    requires EmptyGroup(s.groups[w.cfg.groupOf[t]], w.cfg.priorities)
    requires b < |s.headers| && Priority(s.headers[b]) == 0
    ensures HoldsOne(g, w.cfg.priorities, b)
    ensures At(w, s, t, Local(s.qps[w.cfg.qpOf[t]].(cq := []), Thread(ToPop, []), g))
  {
    Here(w, s, t);
    var l := LocalOf(w.cfg, s, t);
    hide At, Priority, EmptyGroup, HoldsOne;
    var wc := RecvWc(b, 0);
    PolledAlone(l.qp, wc);
    var l1 := l.(qp := l.qp.(cq := []), thread := Thread(Handling, [wc]));
    Moves(w, s, t, l, [], l1);
    HandleIs(l1, s.headers, b);
    hide Handle;
    var l2 := l1.(thread := Thread(ToFile(0, D.RecvReq(b, 0)), []));
    Moves(w, s, t, l1, [], l2);
    g := FileIt(w, s, t, l2, b);
  }

  lemma NothingToHandle(l: Local, headers: seq<Header>)
    requires l.thread.batch == []
    ensures Handle(l, headers) == l.(thread := Thread(ToPop, []))
  {
  }

  /** At most a send completion. */
  ghost predicate Quiet(cq: seq<Wc>) {
    cq == [] || (|cq| == 1 && cq[0].SendWc?)
  }

  /** Whether a response is signalled when `n` requests were served; where it may be, it is. */
  ghost predicate Reporting(mode: Mode, n: nat)
    requires mode.signalling.Every? ==> mode.signalling.interval > 0
  {
    mode.signalling.Every? ==> Signalled(n, mode.signalling.interval)
  }

  /** The completion of the next response. */
  ghost function ReportOf(mode: Mode, qp: Qp): (report: seq<Wc>)
    requires mode.signalling.Every? ==> mode.signalling.interval > 0
    ensures report != [] <==> Reporting(mode, qp.rcnt)
    ensures Quiet(report)
  {
    if Reporting(mode, qp.rcnt) then [SendWc(qp.sent + 1)] else []
  }

  lemma PopIs(l: Local, b: nat, lists: D.Queues)
    requires |l.group.metaCQ| > 0 && l.group.metaCQ[0] == [D.RecvReq(b, 0)] && l.thread.batch == []
    requires lists == l.group.metaCQ[0 := []]
    ensures var x := D.RecvReq(b, 0);
            Pop(l, 0)
            == Local(l.qp, Thread(Erasing(0, x), []),
                     l.group.(metaCQ := lists, events := l.group.events + [D.Iterate],
                              services := l.group.services + [D.Service(0, x)]))
  {
    assert [D.RecvReq(b, 0)][1..] == [];
  }

  /** The only request is served and its buffer reposted here, if there is room. */
  lemma TakeUp(w: World, s: State, t: nat, l: Local, b: nat) returns (g: Group)
    requires At(w, s, t, l) && ValidConfig(w.cfg)
    requires l.thread == Thread(ToPop, []) && HoldsOne(l.group, w.cfg.priorities, b)
    ensures EmptyGroup(g, w.cfg.priorities)
    ensures At(w, s, t, Local(Repost(l.qp, b, w.cfg.mode.rxDepth), Thread(Sending(D.RecvReq(b, 0)), []), g))
  {
    hide At, Signalled;
    var x := D.RecvReq(b, 0);
    var lists := l.group.metaCQ[0 := []];
    var l1 := l.(thread := Thread(Testing, []), group := l.group.(holder := t));
    Moves(w, s, t, l, [], l1);
    var l2 := l1.(thread := Thread(Popping(0), []));
    Moves(w, s, t, l1, [], l2);
    PopIs(l2, b, lists);
    hide Pop;
    var l3 := l2.(thread := Thread(Erasing(0, x), []),
                  group := l2.group.(metaCQ := lists, events := l.group.events + [D.Iterate],
                                     services := l.group.services + [D.Service(0, x)]));
    Moves(w, s, t, l2, [], l3);
    var l4 := l3.(thread := Thread(Leaving(0, x), []), group := l3.group.(skipList := {}));
    Moves(w, s, t, l3, [], l4);
    g := l4.group.(holder := FREE);
    var l5 := l4.(thread := Thread(Serving(0, x), []), group := g);
    Moves(w, s, t, l4, [], l5);
    var qp := Repost(l.qp, b, w.cfg.mode.rxDepth);
    hide Repost;
    Moves(w, s, t, l5, [], Local(qp, Thread(Sending(x), []), g));
  }

  ghost predicate AboutToSend(th: Thread) {
    th.pc.Sending? && th.batch == []
  }

  /** The response is sent. */
  lemma SendOff(w: World, s: State, t: nat, l: Local)
    requires At(w, s, t, l) && ValidConfig(w.cfg) && AboutToSend(l.thread)
    ensures At(w, s, t, Local(Answered(l.qp, ReportOf(w.cfg.mode, l.qp)), IDLE, l.group))
  {
    hide At, Signalled;
    var report := ReportOf(w.cfg.mode, l.qp);
    Moves(w, s, t, l, report, Local(Answered(l.qp, report), IDLE, l.group));
  }

  /** A poll that finds a send completion also leads to the point of serving. */
  lemma PollCompletion(w: World, s: State, t: nat, n: nat)
    requires Reached(w, s) && t < |s.threads| && w.cfg.mode.pollLimit > 0
    requires s.threads[t] == IDLE && s.qps[w.cfg.qpOf[t]].cq == [SendWc(n)]
    ensures At(w, s, t, Local(s.qps[w.cfg.qpOf[t]].(cq := [], reclaimed := n), Thread(ToPop, []),
                              s.groups[w.cfg.groupOf[t]]))
  {
    Here(w, s, t);
    var l := LocalOf(w.cfg, s, t);
    hide At;
    var wc := SendWc(n);
    PolledAlone(l.qp, wc);
    assert [wc][1..] == [];
    var l1 := l.(qp := l.qp.(cq := [], reclaimed := n), thread := Thread(Handling, [wc]));
    Moves(w, s, t, l, [], l1);
    var l2 := l1.(thread := Thread(Handling, []));
    Moves(w, s, t, l1, [], l2);
    Moves(w, s, t, l2, [], l2.(thread := Thread(ToPop, [])));
  }

  /** A thread that finds nothing to serve goes back to polling. */
  lemma ComeBack(w: World, s: State, t: nat) returns (g: Group)
    requires Reached(w, s) && t < |s.threads|
    requires s.threads[t] == Thread(ToPop, []) && EmptyGroup(s.groups[w.cfg.groupOf[t]], w.cfg.priorities)
    ensures EmptyGroup(g, w.cfg.priorities)
    ensures At(w, s, t, Local(s.qps[w.cfg.qpOf[t]], IDLE, g))
  {
    Here(w, s, t);
    var l := LocalOf(w.cfg, s, t);
    hide At;
    var l1 := l.(thread := Thread(Testing, []), group := l.group.(holder := t));
    Moves(w, s, t, l, [], l1);
    var l2 := l1.(thread := Thread(LeavingEmpty, []),
                  group := l1.group.(events := l.group.events + [D.Iterate]));
    Moves(w, s, t, l1, [], l2);
    g := l2.group.(holder := FREE);
    Moves(w, s, t, l2, [], l2.(thread := IDLE, group := g));
  }

  // ---- rounds between calm states ----

  /** Every buffer is posted and nobody is busy; at most a send completion waits, at `q0`. */
  ghost predicate Calm(cfg: Config, s: State, q0: nat) {
    && Shaped(cfg, s) && q0 < |s.qps| && Quiet(s.qps[q0].cq)
    && (forall q | 0 <= q < |s.qps| && q != q0 :: s.qps[q].cq == [])
    && (forall q | 0 <= q < |s.qps| :: s.qps[q].lost == multiset{})
    && (forall t | 0 <= t < |s.threads| :: s.threads[t] == IDLE)
    && (forall g | 0 <= g < |s.groups| :: EmptyGroup(s.groups[g], cfg.priorities))
  }

  /** Thread `u` polls `q0`, whose receive queue holds what is posted there, and the buffers
      exist. */
  ghost predicate Ready(w: World, s: State, u: nat, q0: nat) {
    && Reached(w, s) && Calm(w.cfg, s, q0)
    && u < |s.threads| && w.cfg.qpOf[u] == q0 && |s.qps[q0].posted| <= w.cfg.mode.rxDepth
    && w.cfg.mode.pollLimit > 0 && w.cfg.priorities > 0
    && |s.headers| == |w.headers|
  }

  /** A request arrives at thread `t`'s own queue pair and is served there, up to the point of
      sending the response. */
  lemma TakeOwn(w: World, s: State, t: nat, b: nat) returns (s': State)
    requires Reached(w, s) && t < |s.threads| && s.threads[t] == IDLE
    requires w.cfg.mode.pollLimit > 0 && w.cfg.priorities > 0
    requires EmptyGroup(s.groups[w.cfg.groupOf[t]], w.cfg.priorities)
    requires var x := s.qps[w.cfg.qpOf[t]];
             x.cq == [] && b in x.posted && b < |s.headers| && |x.posted| <= w.cfg.mode.rxDepth
    ensures Reached(w, s') && |s'.headers| == |s.headers|
    ensures s'.qps == s.qps[w.cfg.qpOf[t] := s.qps[w.cfg.qpOf[t]].(rcnt := s.qps[w.cfg.qpOf[t]].rcnt + 1)]
    ensures s'.threads == s.threads[t := Thread(Sending(D.RecvReq(b, 0)), [])]
    ensures s'.groups == s.groups[w.cfg.groupOf[t] := s'.groups[w.cfg.groupOf[t]]]
    ensures EmptyGroup(s'.groups[w.cfg.groupOf[t]], w.cfg.priorities)
  {
    hide Reachable, Priority, EmptyGroup, HoldsOne, Signalled;
    var q := w.cfg.qpOf[t];
    var x := s.qps[q];
    Arrives(w, s, q, b);
    var s1 := Arrived(s, q, b);
    HighestIsFirst();
    assert x.cq + [RecvWc(b, 0)] == [RecvWc(b, 0)];
    var g := PollAndFile(w, s1, t, b);
    var less := x.(posted := x.posted - multiset{b}, cq := []);
    var g' := TakeUp(w, s1, t, Local(less, Thread(ToPop, []), g), b);
    PutBack(x.posted, b);
    assert |less.posted| == |x.posted| - 1;
    assert Repost(less, b, w.cfg.mode.rxDepth) == x.(rcnt := x.rcnt + 1);
    s' := Put(w.cfg, s1, t, Local(x.(rcnt := x.rcnt + 1), Thread(Sending(D.RecvReq(b, 0)), []), g'));
  }

  lemma Answer(w: World, s: State, t: nat) returns (s': State)
    requires Reached(w, s) && t < |s.threads| && AboutToSend(s.threads[t])
    ensures Reached(w, s')
    ensures var q := w.cfg.qpOf[t];
            s' == s.(qps := s.qps[q := Answered(s.qps[q], ReportOf(w.cfg.mode, s.qps[q]))],
                     threads := s.threads[t := IDLE])
  {
    hide Reachable, ReportOf, Answered;
    Here(w, s, t);
    SendOff(w, s, t, LocalOf(w.cfg, s, t));
    var x := s.qps[w.cfg.qpOf[t]];
    s' := Put(w.cfg, s, t, Local(Answered(x, ReportOf(w.cfg.mode, x)), IDLE, s.groups[w.cfg.groupOf[t]]));
  }

  /** A request arrives at `q0` itself, is served there and answered. */
  lemma ServeOwn(w: World, s: State, u: nat, q0: nat, b: nat) returns (s': State)
    requires Ready(w, s, u, q0) && s.qps[q0].cq == [] && b in s.qps[q0].posted && b < |s.headers|
    ensures Ready(w, s', u, q0)
    ensures s'.qps[q0].rcnt == s.qps[q0].rcnt + 1 && s'.qps[q0].posted == s.qps[q0].posted
    ensures s'.qps[q0].cq != [] <==> Reporting(w.cfg.mode, s.qps[q0].rcnt + 1)
  {
    hide Reachable, EmptyGroup, Reporting, ReportOf;
    var s1 := TakeOwn(w, s, u, b);
    s' := Answer(w, s1, u);
    assert [] + ReportOf(w.cfg.mode, s1.qps[q0]) == ReportOf(w.cfg.mode, s1.qps[q0]);
  }

  /** Requests of its own bring a queue pair to its next signalled send. */
  lemma {:induction false} Prime(w: World, s: State, u: nat, q0: nat, b: nat, d: nat) returns (s': State)
    requires Ready(w, s, u, q0) && b in s.qps[q0].posted && b < |s.headers|
    requires d > 0 && Reporting(w.cfg.mode, s.qps[q0].rcnt + d)
    ensures Ready(w, s', u, q0) && s'.qps[q0].cq != [] && s'.qps[q0].posted == s.qps[q0].posted
    decreases d
  {
    hide Reachable, Reporting, EmptyGroup;
    if s.qps[q0].cq != [] {
      s' := s;
    } else {
      s' := ServeOwn(w, s, u, q0, b);
      if d > 1 {
        s' := Prime(w, s', u, q0, b, d - 1);
      }
    }
  }

  lemma NextReport(mode: Mode, n: nat) returns (d: nat)
    requires mode.signalling.Every? ==> 0 < mode.signalling.interval < COUNTER_RANGE
    ensures d > 0 && Reporting(mode, n + d)
  {
    if mode.signalling.Every? {
      var k := SignalledSoon(n, mode.signalling.interval);
      d := k - n;
    } else {
      d := 1;
    }
  }

  /** A request that arrives at another queue pair is served by thread `u`, which has just
      polled a send completion, and its buffer is reposted at `q0`, or lost. */
  lemma OneMoves(w: World, s: State, t: nat, u: nat, q0: nat, b: nat) returns (s': State)
    requires Ready(w, s, u, q0) && s.qps[q0].cq != []
    requires t < |s.threads| && w.cfg.qpOf[t] != q0 && w.cfg.groupOf[t] == w.cfg.groupOf[u]
    requires b in s.qps[w.cfg.qpOf[t]].posted && b < |s.headers|
    ensures Reached(w, s')
    ensures if |s.qps[q0].posted| < w.cfg.mode.rxDepth
            then Ready(w, s', u, q0) && s'.qps[q0].posted == s.qps[q0].posted + multiset{b}
            else s'.qps[q0].lost == multiset{b}
  {
    hide Reachable, Priority, EmptyGroup, HoldsOne, Reporting, ReportOf;
    var q := w.cfg.qpOf[t];
    var x, y := s.qps[q], s.qps[q0];
    Arrives(w, s, q, b);
    var s1 := Arrived(s, q, b);
    HighestIsFirst();
    assert x.cq + [RecvWc(b, 0)] == [RecvWc(b, 0)];
    var g1 := PollAndFile(w, s1, t, b);
    var s2 := Put(w.cfg, s1, t, Local(x.(posted := x.posted - multiset{b}), Thread(ToPop, []), g1));
    assert y.cq == [SendWc(y.cq[0].number)];
    PollCompletion(w, s2, u, y.cq[0].number);
    var less := y.(cq := [], reclaimed := y.cq[0].number);
    var g2 := TakeUp(w, s2, u, Local(less, Thread(ToPop, []), g1), b);
    var qp := Repost(less, b, w.cfg.mode.rxDepth);
    SendOff(w, s2, u, Local(qp, Thread(Sending(D.RecvReq(b, 0)), []), g2));
    var report := ReportOf(w.cfg.mode, qp);
    assert [] + report == report;
    var s3 := Put(w.cfg, s2, u, Local(Answered(qp, report), IDLE, g2));
    var g3 := ComeBack(w, s3, t);
    s' := Put(w.cfg, s3, t, Local(s3.qps[q], IDLE, g3));
  }

  // ---- gathering ----

  /** Thread `u` polls `q0`, and each other queue pair of the group is polled by some thread of
      it. All buffers exist, `q0` has one to begin with, and every queue pair has room for its
      own. */
  ghost predicate Given(w: World, home: seq<nat>, bufs: set<nat>, u: nat, q0: nat) {
    && Setup(w.cfg, w.blocks, bufs) && Homes(w.cfg, home) && u < |w.cfg.qpOf| && w.cfg.qpOf[u] == q0
    && w.blocks[q0] != {} && (forall b | b in bufs :: b < |w.headers|)
    && (forall q | 0 <= q < w.cfg.qps :: |w.blocks[q]| <= w.cfg.mode.rxDepth)
    && w.cfg.priorities > 0 && w.cfg.mode.pollLimit > 0
    && (w.cfg.mode.signalling.Every? ==> w.cfg.mode.signalling.interval < COUNTER_RANGE)
    && forall q | 0 <= q < w.cfg.qps && q != q0 && home[q] == home[q0] :: Gives(w.cfg, u, q)
  }

  ghost predicate Gives(cfg: Config, u: nat, q: nat)
    requires ValidConfig(cfg) && u < |cfg.qpOf|
  {
    exists t :: 0 <= t < |cfg.qpOf| && cfg.qpOf[t] == q && cfg.groupOf[t] == cfg.groupOf[u]
  }

  /** The buffers of the group that `q0` belongs to. */
  ghost function Own(w: World, home: seq<nat>, q0: nat): set<nat>
    requires q0 < |home| == |w.blocks|
  {
    GroupBufs(w.blocks, home, home[q0])
  }

  lemma {:induction false} FindPlace(qps: seq<Qp>, b: nat) returns (q: nat)
    requires b in Sum(qps, QpBag)
    ensures q < |qps| && b in QpBag(qps[q])
  {
    hide QpBag;
    if b in QpBag(qps[0]) {
      q := 0;
    } else {
      var r := FindPlace(qps[1..], b);
      q := r + 1;
    }
  }

  lemma QuietBag(x: Qp)
    requires Quiet(x.cq) && x.lost == multiset{}
    ensures QpBag(x) == x.posted && Receives(x.cq) == 0
  {
    assert x.cq != [] ==> x.cq[1..] == [];
  }

  lemma CalmBag(cfg: Config, s: State, q0: nat)
    requires Calm(cfg, s, q0)
    ensures All(s) == Sum(s.qps, QpBag)
    ensures forall q | 0 <= q < |s.qps| :: QpBag(s.qps[q]) == s.qps[q].posted
  {
    SumEmpty(s.threads, ThreadBag);
    forall group | group in s.groups ensures GroupBag(group) == multiset{} {
      SumEmpty(group.metaCQ, ListBag);
    }
    SumEmpty(s.groups, GroupBag);
    forall q | 0 <= q < |s.qps| ensures QpBag(s.qps[q]) == s.qps[q].posted {
      QuietBag(s.qps[q]);
    }
    hide Sum;
  }

  lemma SomethingMissing(part: multiset<nat>, bufs: set<nat>) returns (b: nat)
    requires part <= multiset(bufs) && |part| < |bufs|
    ensures b in bufs && b !in part
  {
    var rest := multiset(bufs) - part;
    assert multiset(bufs) == part + rest;
    assert |rest| > 0;
    b :| b in rest;
    assert multiset(bufs)[b] <= 1;
  }

  lemma TokensOf(cfg: Config, bufs: set<nat>, s: State)
    requires Inv(cfg, bufs, s)
    ensures All(s) == multiset(bufs)
  {
  }

  /** A buffer is in one block only, so it belongs to one group. */
  lemma OneHome(blocks: seq<set<nat>>, home: seq<nat>, bufs: set<nat>, b: nat, g: nat, h: nat)
    requires Partition(blocks, bufs) && |home| == |blocks|
    requires b in GroupBufs(blocks, home, g) && b in GroupBufs(blocks, home, h)
    ensures g == h && b in bufs
  {
    var p :| 0 <= p < |blocks| && home[p] == g && b in blocks[p];
    var q :| 0 <= q < |blocks| && home[q] == h && b in blocks[q];
    SumHolds(blocks, BlockBag, p);
    if p < q {
      SumHoldsBoth(blocks, BlockBag, p, q);
    } else if q < p {
      SumHoldsBoth(blocks, BlockBag, q, p);
    }
    hide Sum, GroupBufs;
    assert multiset(bufs)[b] <= 1;
  }

  /** A buffer of the group that is not at `q0` yet, and where it is. */
  lemma FindBuffer(w: World, home: seq<nat>, bufs: set<nat>, s: State, u: nat, q0: nat)
      returns (q: nat, b: nat)
    requires Given(w, home, bufs, u, q0) && Ready(w, s, u, q0)
    requires |s.qps[q0].posted| < |Own(w, home, q0)|
    ensures q < |s.qps| && q != q0 && home[q] == home[q0] && b in bufs && b in s.qps[q].posted
  {
    hide Inv, Homed, GroupBufs;
    BuffersStayInGroup(w.cfg, w.blocks, w.headers, home, bufs, s, q0);
    ReachableHomed(w.cfg, w.blocks, w.headers, home, bufs, s);
    CalmBag(w.cfg, s, q0);
    TokensOf(w.cfg, bufs, s);
    hide Reachable, Calm, Held;
    assert s.qps[q0].posted <= multiset(Own(w, home, q0));
    b := SomethingMissing(s.qps[q0].posted, Own(w, home, q0));
    OneHome(w.blocks, home, bufs, b, home[q0], home[q0]);
    assert b in Sum(s.qps, QpBag);
    q := FindPlace(s.qps, b);
    HomeOf(w, home, s, q, b);
    OneHome(w.blocks, home, bufs, b, home[q0], home[q]);
  }

  lemma HomeOf(w: World, home: seq<nat>, s: State, q: nat, b: nat)
    requires Shaped(w.cfg, s) && |home| == |w.blocks| == w.cfg.qps && Homed(w.cfg, w.blocks, home, s)
    requires q < |s.qps| && b in QpBag(s.qps[q])
    ensures b in GroupBufs(w.blocks, home, home[q])
  {
    assert AtHome(QpBag(s.qps[q]), w.blocks, home, home[q]);
    hide QpBag, GroupBufs;
  }

  lemma PostedInBufs(cfg: Config, bufs: set<nat>, s: State, q: nat, b: nat)
    requires Inv(cfg, bufs, s) && q < |s.qps| && b in s.qps[q].posted
    ensures b in bufs
  {
    hide Inv;
    TokensOf(cfg, bufs, s);
    SumHolds(s.qps, QpBag, q);
    hide Sum;
    assert b in All(s);
  }

  lemma StartIsReady(w: World, home: seq<nat>, bufs: set<nat>, u: nat, q0: nat)
    requires Given(w, home, bufs, u, q0)
    ensures Ready(w, Start(w.cfg, w.blocks, w.headers), u, q0)
    ensures |Start(w.cfg, w.blocks, w.headers).qps[q0].posted| >= 1
  {
    var s := Start(w.cfg, w.blocks, w.headers);
    assert Legal(w.cfg, s, []) && After(w.cfg, s, []) == s;
    assert |multiset(w.blocks[q0])| > 0 by {
      var b :| b in w.blocks[q0];
      assert b in multiset(w.blocks[q0]);
    }
    hide Legal, After;
  }

  /** One more buffer comes to `q0`, and stays if there is room. */
  lemma GatherOne(w: World, home: seq<nat>, bufs: set<nat>, u: nat, q0: nat, s: State) returns (s': State)
    requires Given(w, home, bufs, u, q0) && Ready(w, s, u, q0)
    requires 0 < |s.qps[q0].posted| < |Own(w, home, q0)|
    ensures Reached(w, s')
    ensures if |s.qps[q0].posted| < w.cfg.mode.rxDepth
            then Ready(w, s', u, q0) && |s'.qps[q0].posted| == |s.qps[q0].posted| + 1
            else s'.qps[q0].lost != multiset{}
  {
    hide Reachable, Inv, Calm, Reporting, GroupBufs;
    ReachableInv(w.cfg, w.blocks, w.headers, bufs, s);
    var own :| own in s.qps[q0].posted;
    PostedInBufs(w.cfg, bufs, s, q0, own);
    var d := NextReport(w.cfg.mode, s.qps[q0].rcnt);
    var s1 := Prime(w, s, u, q0, own, d);
    var q, b := FindBuffer(w, home, bufs, s1, u, q0);
    assert Gives(w.cfg, u, q);
    var t :| 0 <= t < |w.cfg.qpOf| && w.cfg.qpOf[t] == q && w.cfg.groupOf[t] == w.cfg.groupOf[u];
    s' := OneMoves(w, s1, t, u, q0, b);
  }

  /** As many buffers as fit, if the group has them, gather at `q0`. */
  lemma {:induction false} Gather(w: World, home: seq<nat>, bufs: set<nat>, u: nat, q0: nat, k: nat)
      returns (s: State)
    requires Given(w, home, bufs, u, q0) && k <= |Own(w, home, q0)| && k <= w.cfg.mode.rxDepth
    ensures Ready(w, s, u, q0) && |s.qps[q0].posted| >= k && |s.qps[q0].posted| >= 1
  {
    StartIsReady(w, home, bufs, u, q0);
    hide Ready, Reachable, GroupBufs;
    if k == 0 {
      s := Start(w.cfg, w.blocks, w.headers);
    } else {
      s := Gather(w, home, bufs, u, q0, k - 1);
      if |s.qps[q0].posted| < k {
        s := GatherOne(w, home, bufs, u, q0, s);
      }
    }
  }

  lemma ReceivedCounts(x: Qp, b: nat)
    requires b in x.posted
    ensures var y := Received(x, b, 0);
            Receives(y.cq) == Receives(x.cq) + 1 && |y.posted| == |x.posted| - 1
  {
    HeldConcat(x.cq, [RecvWc(b, 0)]);
    assert [RecvWc(b, 0)][1..] == [];
    hide Held;
  }

  /** And then `k` requests arrive there. */
  lemma {:induction false} ArriveAll(w: World, home: seq<nat>, bufs: set<nat>, u: nat, q0: nat, k: nat)
      returns (s: State)
    requires Given(w, home, bufs, u, q0) && k <= |Own(w, home, q0)| <= w.cfg.mode.rxDepth
    ensures Reached(w, s) && |s.headers| == |w.headers| && q0 < |s.qps|
    ensures Receives(s.qps[q0].cq) == k && |s.qps[q0].posted| >= |Own(w, home, q0)| - k
  {
    hide Reachable, Received, Receives, Inv, GroupBufs;
    if k == 0 {
      s := Gather(w, home, bufs, u, q0, |Own(w, home, q0)|);
      QuietBag(s.qps[q0]);
    } else {
      var t := ArriveAll(w, home, bufs, u, q0, k - 1);
      var b :| b in t.qps[q0].posted;
      ReachableInv(w.cfg, w.blocks, w.headers, bufs, t);
      PostedInBufs(w.cfg, bufs, t, q0, b);
      Arrives(w, t, q0, b);
      s := Arrived(t, q0, b);
      ReceivedCounts(t.qps[q0], b);
    }
  }

  /** Every repost at `q0` succeeds in every run exactly when the receive queue has room for all
      the buffers of its group. */
  lemma RepostsFitIff(w: World, home: seq<nat>, bufs: set<nat>, u: nat, q0: nat)
    requires Given(w, home, bufs, u, q0)
    ensures (forall s | Reached(w, s) :: s.qps[q0].lost == multiset{})
       <==> |Own(w, home, q0)| <= w.cfg.mode.rxDepth
  {
    hide Reachable, GroupBufs;
    if |Own(w, home, q0)| <= w.cfg.mode.rxDepth {
      forall s | Reached(w, s) ensures s.qps[q0].lost == multiset{} {
        NothingLost(w.cfg, w.blocks, w.headers, home, bufs, s, q0);
      }
    } else {
      var s := Gather(w, home, bufs, u, q0, w.cfg.mode.rxDepth);
      s := GatherOne(w, home, bufs, u, q0, s);
    }
  }

  /** The receives alone take, in some run, an entry for each buffer of the group, given that every
      repost succeeds, and never more. */
  lemma RoomForReceivesIff(w: World, home: seq<nat>, bufs: set<nat>, u: nat, q0: nat, depth: nat)
    requires Given(w, home, bufs, u, q0) && |Own(w, home, q0)| <= w.cfg.mode.rxDepth
    ensures (forall s | Reached(w, s) :: Receives(s.qps[q0].cq) <= depth) <==> |Own(w, home, q0)| <= depth
  {
    hide Reachable, GroupBufs;
    if |Own(w, home, q0)| <= depth {
      forall s | Reached(w, s) ensures Receives(s.qps[q0].cq) <= depth {
        BuffersStayInGroup(w.cfg, w.blocks, w.headers, home, bufs, s, q0);
      }
    } else {
      var s := ArriveAll(w, home, bufs, u, q0, |Own(w, home, q0)|);
    }
  }
}
