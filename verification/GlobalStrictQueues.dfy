/** How full the completion queue and the send queue of a queue pair get when threads share
    groups and queue pairs. */
module GlobalStrictQueues {
  import opened Arithmetic
  import opened Pipeline
  import opened GlobalStrict
  import opened GlobalStrictBuffers
  import opened GlobalStrictGroups
  import opened GlobalStrictLimits

  /** The threads that poll queue pair `q`. */
  ghost function Users(cfg: Config, q: nat): set<nat> {
    set t | 0 <= t < |cfg.qpOf| && cfg.qpOf[t] == q
  }

  /** Those of them that are about to poll. */
  ghost function Pollers(cfg: Config, s: State, q: nat): set<nat>
    requires |s.threads| == |cfg.qpOf|
  {
    set t | t in Users(cfg, q) && s.threads[t].pc.Polling?
  }

  lemma {:induction false} SubsetSize(a: set<nat>, b: set<nat>)
    requires a <= b
    ensures |a| <= |b|
  {
    if a != {} {
      var x :| x in a;
      SubsetSize(a - {x}, b - {x});
    }
  }

  // ---- the completion queue: at most a send completion for each thread about to poll ----

  /** A poll empties the queue; a send adds a completion and a thread about to poll. */
  ghost predicate Crowd(cfg: Config, s: State, q: nat)
    requires |s.threads| == |cfg.qpOf|
  {
    q < |s.qps| && Sends(s.qps[q].cq) <= |Pollers(cfg, s, q)|
  }

  ghost function One(b: bool): nat {
    if b then 1 else 0
  }

  lemma OneSend(cq: seq<Wc>, report: seq<Wc>)
    requires report == [] || (|report| == 1 && report[0].SendWc?)
    ensures Sends(cq + report) <= Sends(cq) + 1
  {
    HeldConcat(cq, report);
    assert report == [] || report[1..] == [];
  }

  lemma MoveCrowds(l: Local, t: nat, headers: seq<Header>, mode: Mode, report: seq<Wc>)
    requires LocalEnabled(l, mode, report) && |l.qp.cq| <= mode.pollLimit
    ensures var l' := LocalMove(l, t, headers, mode, report);
            || Sends(l'.qp.cq) == 0
            || Sends(l'.qp.cq) + One(l.thread.pc.Polling?) <= Sends(l.qp.cq) + One(l'.thread.pc.Polling?)
  {
    if l.thread.pc.Sending? {
      OneSend(l.qp.cq, report);
    }
    hide LastSend, Signalled;
  }

  /** Two sets that agree but for `t`. */
  lemma DifferInOne(a: set<nat>, b: set<nat>, t: nat)
    requires a - {t} == b - {t}
    ensures |b| + One(t in a) == |a| + One(t in b)
  {
    assert a == (a - {t}) + if t in a then {t} else {};
    assert b == (b - {t}) + if t in b then {t} else {};
  }

  lemma PollersAfter(cfg: Config, s: State, t: nat, l: Local)
    requires Shaped(cfg, s) && t < |s.threads|
    ensures |Pollers(cfg, Put(cfg, s, t, l), cfg.qpOf[t])| + One(s.threads[t].pc.Polling?)
         == |Pollers(cfg, s, cfg.qpOf[t])| + One(l.thread.pc.Polling?)
    ensures forall q | q != cfg.qpOf[t] :: Pollers(cfg, Put(cfg, s, t, l), q) == Pollers(cfg, s, q)
  {
    var q := cfg.qpOf[t];
    DifferInOne(Pollers(cfg, s, q), Pollers(cfg, Put(cfg, s, t, l), q), t);
  }

  lemma CrowdStep(cfg: Config, s: State, a: Action, q: nat)
    requires Shaped(cfg, s) && Crowd(cfg, s, q) && Enabled(cfg, s, a)
    requires |s.qps[q].cq| <= cfg.mode.pollLimit
    ensures Crowd(cfg, Apply(cfg, s, a), q)
  {
    match a {
      case Arrive(p, b, h) =>
        HeldConcat(s.qps[p].cq, [RecvWc(b, h.src)]);
        assert [RecvWc(b, h.src)][1..] == [];
        hide Sends;
        assert Pollers(cfg, Apply(cfg, s, a), q) == Pollers(cfg, s, q);
      case Move(t, report) =>
        var l := LocalOf(cfg, s, t);
        var l' := LocalMove(l, t, s.headers, cfg.mode, report);
        assert Apply(cfg, s, a) == Put(cfg, s, t, l');
        PollersAfter(cfg, s, t, l');
        if cfg.qpOf[t] == q {
          MoveCrowds(l, t, s.headers, cfg.mode, report);
        }
        hide LocalMove, LocalEnabled, Sends, Pollers;
    }
  }

  /** A poll can take all that a group's buffers and the queue pair's threads leave in the
      completion queue. */
  ghost predicate PollsAll(cfg: Config, blocks: seq<set<nat>>, home: seq<nat>, q: nat)
    requires q < |home| == |blocks|
  {
    |GroupBufs(blocks, home, home[q])| + |Users(cfg, q)| <= cfg.mode.pollLimit
  }

  lemma CrowdFits(w: World, home: seq<nat>, bufs: set<nat>, s: State, q: nat)
    requires Setup(w.cfg, w.blocks, bufs) && Homes(w.cfg, home) && Reached(w, s) && Crowd(w.cfg, s, q)
    ensures q < |home| == |w.blocks| && Sends(s.qps[q].cq) <= |Users(w.cfg, q)|
    ensures |s.qps[q].cq| <= |GroupBufs(w.blocks, home, home[q])| + |Users(w.cfg, q)|
  {
    BuffersStayInGroup(w.cfg, w.blocks, w.headers, home, bufs, s, q);
    CountsAll(s.qps[q].cq);
    SubsetSize(Pollers(w.cfg, s, q), Users(w.cfg, q));
    hide GroupBufs, Reachable;
  }

  lemma {:induction false} CrowdHolds(w: World, home: seq<nat>, bufs: set<nat>, s: State, steps: seq<Action>, q: nat)
    requires Setup(w.cfg, w.blocks, bufs) && Homes(w.cfg, home) && Reached(w, s) && Crowd(w.cfg, s, q)
    requires PollsAll(w.cfg, w.blocks, home, q) && Legal(w.cfg, s, steps)
    ensures Crowd(w.cfg, After(w.cfg, s, steps), q)
    decreases |steps|
  {
    if steps != [] {
      CrowdFits(w, home, bufs, s, q);
      CrowdStep(w.cfg, s, steps[0], q);
      Next(w, s, steps[0]);
      hide Crowd, Enabled, Apply, Reachable;
      CrowdHolds(w, home, bufs, Apply(w.cfg, s, steps[0]), steps[1..], q);
    }
  }

  lemma StartIsReached(w: World)
    requires ValidConfig(w.cfg) && |w.blocks| == w.cfg.qps
    ensures Reached(w, Start(w.cfg, w.blocks, w.headers))
  {
    var s := Start(w.cfg, w.blocks, w.headers);
    assert Legal(w.cfg, s, []) && After(w.cfg, s, []) == s;
    hide Legal, After;
  }

  lemma ReachedCrowd(w: World, home: seq<nat>, bufs: set<nat>, s: State, q: nat)
    requires Setup(w.cfg, w.blocks, bufs) && Homes(w.cfg, home) && Reached(w, s) && q < |s.qps|
    requires PollsAll(w.cfg, w.blocks, home, q)
    ensures Crowd(w.cfg, s, q)
    ensures Sends(s.qps[q].cq) <= |Users(w.cfg, q)| && |s.qps[q].cq| <= w.cfg.mode.pollLimit
    ensures |s.qps[q].cq| <= |GroupBufs(w.blocks, home, home[q])| + |Users(w.cfg, q)|
  {
    var start := Start(w.cfg, w.blocks, w.headers);
    var steps :| Legal(w.cfg, start, steps) && After(w.cfg, start, steps) == s;
    StartIsReached(w);
    assert Crowd(w.cfg, start, q);
    hide Crowd, GroupBufs;
    CrowdHolds(w, home, bufs, start, steps, q);
    CrowdFits(w, home, bufs, s, q);
  }

  // ---- runs that fill it ----

  /** The threads of `q0` are idle, but for those in `busy`, which are about to send; the group
      has no requests. */
  ghost predicate Poised(w: World, s: State, q0: nat, g: nat, busy: set<nat>) {
    && Reached(w, s) && |s.headers| == |w.headers| && q0 < |s.qps| && g < |s.groups|
    && w.cfg.mode.pollLimit > 0 && w.cfg.priorities > 0
    && EmptyGroup(s.groups[g], w.cfg.priorities)
    && forall t | t in Users(w.cfg, q0) ::
         w.cfg.groupOf[t] == g && if t in busy then AboutToSend(s.threads[t]) else s.threads[t] == IDLE
  }

  /** Nothing to poll at `q0`, and buffer `b` posted. */
  ghost predicate Stocked(w: World, s: State, q0: nat, b: nat) {
    && q0 < |s.qps| && s.qps[q0].cq == [] && b in s.qps[q0].posted && b < |s.headers|
    && |s.qps[q0].posted| <= w.cfg.mode.rxDepth
  }

  /** One more thread serves a request and stops short of sending. */
  lemma Engage(w: World, s: State, q0: nat, g: nat, busy: set<nat>, b: nat, t: nat, busy': set<nat>)
      returns (s': State)
    requires Poised(w, s, q0, g, busy) && t in Users(w.cfg, q0) && t !in busy && busy' == busy + {t}
    requires Stocked(w, s, q0, b)
    ensures q0 < |s'.qps| && Poised(w, s', q0, g, busy') && Stocked(w, s', q0, b)
    ensures s'.qps[q0] == s.qps[q0].(rcnt := s.qps[q0].rcnt + 1)
  {
    hide Reachable, EmptyGroup;
    s' := TakeOwn(w, s, t, b);
  }

  lemma OneFirst(busy: set<nat>, todo: set<nat>, t: nat)
    requires t in todo && todo !! busy
    ensures busy + {t} + (todo - {t}) == busy + todo
    ensures (todo - {t}) !! (busy + {t}) && |todo - {t}| == |todo| - 1
  {
  }

  lemma {:induction false} EngageAll(w: World, s: State, q0: nat, g: nat, busy: set<nat>, b: nat, todo: set<nat>)
      returns (s': State)
    requires Poised(w, s, q0, g, busy) && todo <= Users(w.cfg, q0) && todo !! busy
    requires Stocked(w, s, q0, b)
    ensures Poised(w, s', q0, g, busy + todo) && q0 < |s'.qps|
    ensures s'.qps[q0] == s.qps[q0].(rcnt := s.qps[q0].rcnt + |todo|)
    decreases |todo|
  {
    assert q0 < |s.qps|;
    hide *;
    if todo == {} {
      s' := s;
      assert busy + todo == busy;
    } else {
      var t :| t in todo;
      OneFirst(busy, todo, t);
      s' := Engage(w, s, q0, g, busy, b, t, busy + {t});
      s' := EngageAll(w, s', q0, g, busy + {t}, b, todo - {t});
    }
  }

  /** A thread sends its response. */
  lemma Release(w: World, s: State, q0: nat, g: nat, busy: set<nat>, t: nat) returns (s': State)
    requires Poised(w, s, q0, g, busy) && t in Users(w.cfg, q0) && t in busy
    ensures Poised(w, s', q0, g, busy - {t}) && q0 < |s'.qps|
    ensures s'.qps[q0] == Answered(s.qps[q0], ReportOf(w.cfg.mode, s.qps[q0]))
  {
    hide Reachable, EmptyGroup, ReportOf;
    s' := Answer(w, s, t);
  }

  lemma OneGone(busy: set<nat>, todo: set<nat>, t: nat)
    requires t in todo && todo <= busy
    ensures busy - {t} - (todo - {t}) == busy - todo
    ensures todo - {t} <= busy - {t} && |todo - {t}| == |todo| - 1
  {
  }

  /** Where responses are signalled, all of them are. */
  lemma {:induction false} ReleaseAll(w: World, s: State, q0: nat, g: nat, busy: set<nat>, todo: set<nat>)
      returns (s': State)
    requires Poised(w, s, q0, g, busy) && todo <= Users(w.cfg, q0) && todo <= busy
    requires ValidConfig(w.cfg) && Reporting(w.cfg.mode, s.qps[q0].rcnt)
    ensures Poised(w, s', q0, g, busy - todo) && q0 < |s'.qps|
    ensures |s'.qps[q0].cq| == |s.qps[q0].cq| + |todo|
    ensures s'.qps[q0].sent == s.qps[q0].sent + |todo| && s'.qps[q0].reclaimed == s.qps[q0].reclaimed
    decreases |todo|
  {
    assert q0 < |s.qps|;
    hide Poised, Users, Reporting;
    if todo == {} {
      s' := s;
      assert busy - todo == busy;
    } else {
      var t :| t in todo;
      s' := Release(w, s, q0, g, busy, t);
      OneGone(busy, todo, t);
      s' := ReleaseAll(w, s', q0, g, busy - {t}, todo - {t});
    }
  }

  /** Requests arrive into `k` of the posted buffers. */
  lemma {:induction false} ArriveMany(w: World, home: seq<nat>, bufs: set<nat>, u: nat, s: State, q0: nat, g: nat,
                                      busy: set<nat>, k: nat) returns (s': State)
    requires Given(w, home, bufs, u, q0) && Poised(w, s, q0, g, busy) && k <= |s.qps[q0].posted|
    ensures Poised(w, s', q0, g, busy) && |s'.qps[q0].cq| == |s.qps[q0].cq| + k
    ensures s'.qps[q0].rcnt == s.qps[q0].rcnt && |s'.qps[q0].posted| == |s.qps[q0].posted| - k
    decreases k
  {
    hide Reachable, Inv, EmptyGroup, Users;
    if k == 0 {
      s' := s;
    } else {
      var b :| b in s.qps[q0].posted;
      ReachableInv(w.cfg, w.blocks, w.headers, bufs, s);
      PostedInBufs(w.cfg, bufs, s, q0, b);
      Arrives(w, s, q0, b);
      s' := ArriveMany(w, home, bufs, u, Arrived(s, q0, b), q0, g, busy, k - 1);
    }
  }

  /** The completion at the queue pair, if any, is polled. */
  lemma Drain(w: World, s: State, u: nat, q0: nat) returns (s': State)
    requires Ready(w, s, u, q0)
    ensures Ready(w, s', u, q0) && s'.qps[q0].cq == []
    ensures s'.qps[q0].rcnt == s.qps[q0].rcnt && s'.qps[q0].posted == s.qps[q0].posted
  {
    hide Reachable, EmptyGroup;
    if s.qps[q0].cq == [] {
      s' := s;
    } else {
      var x := s.qps[q0];
      assert x.cq == [SendWc(x.cq[0].number)];
      PollCompletion(w, s, u, x.cq[0].number);
      var less := x.(cq := [], reclaimed := x.cq[0].number);
      var s1 := Put(w.cfg, s, u, Local(less, Thread(ToPop, []), s.groups[w.cfg.groupOf[u]]));
      var g := ComeBack(w, s1, u);
      s' := Put(w.cfg, s1, u, Local(less, IDLE, g));
    }
  }

  lemma {:induction false} ServeMany(w: World, s: State, u: nat, q0: nat, b: nat, d: nat) returns (s': State)
    requires Ready(w, s, u, q0) && s.qps[q0].cq == [] && b in s.qps[q0].posted && b < |s.headers|
    ensures Ready(w, s', u, q0) && s'.qps[q0].cq == []
    ensures s'.qps[q0].rcnt == s.qps[q0].rcnt + d && s'.qps[q0].posted == s.qps[q0].posted
    decreases d
  {
    hide Reached, Calm;
    if d == 0 {
      s' := s;
    } else {
      s' := ServeOwn(w, s, u, q0, b);
      s' := Drain(w, s', u, q0);
      s' := ServeMany(w, s', u, q0, b, d - 1);
    }
  }

  lemma ReadyIsPoised(w: World, home: seq<nat>, s: State, u: nat, q0: nat)
    requires Homes(w.cfg, home) && Ready(w, s, u, q0)
    ensures q0 < |home| && Poised(w, s, q0, home[q0], {})
  {
    hide Reachable, EmptyGroup;
  }

  /** All buffers of the group gather at `q0`, whose threads serve one more request each; then all
      buffers are filled, and the threads send, all of them signalled. */
  lemma FillCompletionQueue(w: World, home: seq<nat>, bufs: set<nat>, u: nat, q0: nat) returns (s: State)
    requires Given(w, home, bufs, u, q0) && |Own(w, home, q0)| <= w.cfg.mode.rxDepth
    ensures Reached(w, s) && q0 < |s.qps|
    ensures |s.qps[q0].cq| == |Own(w, home, q0)| + |Users(w.cfg, q0)|
  {
    hide Reachable, Inv, Calm, Reporting, GroupBufs, EmptyGroup;
    var users := Users(w.cfg, q0);
    hide Users;
    s := Gather(w, home, bufs, u, q0, |Own(w, home, q0)|);
    var b :| b in s.qps[q0].posted;
    ReachableInv(w.cfg, w.blocks, w.headers, bufs, s);
    PostedInBufs(w.cfg, bufs, s, q0, b);
    s := Drain(w, s, u, q0);
    var d := NextReport(w.cfg.mode, s.qps[q0].rcnt + |users|);
    s := ServeMany(w, s, u, q0, b, d);
    ReadyIsPoised(w, home, s, u, q0);
    s := EngageAll(w, s, q0, home[q0], {}, b, users);
    s := ArriveMany(w, home, bufs, u, s, q0, home[q0], {} + users, |Own(w, home, q0)|);
    s := ReleaseAll(w, s, q0, home[q0], {} + users, users);
  }

  /** A completion queue has room for every run exactly when it has room for a receive of each
      buffer of its group and a send completion of each thread that polls it, given that reposts
      succeed and a poll can take as many. */
  lemma CompletionQueueFitsIff(w: World, home: seq<nat>, bufs: set<nat>, u: nat, q0: nat, depth: nat)
    requires Given(w, home, bufs, u, q0) && |Own(w, home, q0)| <= w.cfg.mode.rxDepth
    requires PollsAll(w.cfg, w.blocks, home, q0)
    ensures (forall s | Reached(w, s) :: |s.qps[q0].cq| <= depth)
       <==> |Own(w, home, q0)| + |Users(w.cfg, q0)| <= depth
  {
    hide Reachable, GroupBufs, Users;
    if |Own(w, home, q0)| + |Users(w.cfg, q0)| <= depth {
      forall s | Reached(w, s) ensures |s.qps[q0].cq| <= depth {
        ReachedCrowd(w, home, bufs, s, q0);
      }
    } else {
      var s := FillCompletionQueue(w, home, bufs, u, q0);
    }
  }

  /** With `n` queue pairs of `k` buffers in the group and completion queues of depth `2 * k + 1`,
      that is when the queue pair has its group to itself and at most `k + 1` threads, or shares it
      with one other and has a single thread. */
  lemma AllocatedDepthIff(w: World, home: seq<nat>, bufs: set<nat>, u: nat, q0: nat, n: nat, k: nat)
    requires Given(w, home, bufs, u, q0) && |Own(w, home, q0)| == n * k <= w.cfg.mode.rxDepth
    requires PollsAll(w.cfg, w.blocks, home, q0)
    ensures (forall s | Reached(w, s) :: |s.qps[q0].cq| <= 2 * k + 1)
       <==> (n == 1 && |Users(w.cfg, q0)| <= k + 1) || (n == 2 && |Users(w.cfg, q0)| == 1)
  {
    OwnIsNotEmpty(w, home, bufs, u, q0);
    TargetExists(w, home, bufs, u, q0);
    hide Given, Reached, GroupBufs, Users, PollsAll;
    CompletionQueueFitsIff(w, home, bufs, u, q0, 2 * k + 1);
    Products(n, k, |Users(w.cfg, q0)|);
  }

  lemma TargetExists(w: World, home: seq<nat>, bufs: set<nat>, u: nat, q0: nat)
    requires Given(w, home, bufs, u, q0)
    ensures forall s | Reached(w, s) :: q0 < |s.qps|
  {
    hide Reachable;
  }

  lemma OwnIsNotEmpty(w: World, home: seq<nat>, bufs: set<nat>, u: nat, q0: nat)
    requires Given(w, home, bufs, u, q0)
    ensures |Own(w, home, q0)| > 0 && |Users(w.cfg, q0)| > 0
  {
    var b :| b in w.blocks[q0];
    BlockInGroup(w.blocks, home, q0);
    assert b in Own(w, home, q0);
    assert u in Users(w.cfg, q0);
  }

  lemma Products(n: nat, k: nat, threads: nat)
    requires n * k > 0 && threads > 0
    ensures n * k + threads <= 2 * k + 1 <==> (n == 1 && threads <= k + 1) || (n == 2 && threads == 1)
  {
    assert n > 0 && k > 0 by {
      assert 0 * k == 0 && n * 0 == 0;
    }
    if n >= 3 {
      MulMono(3, n, k);
    }
  }

  // ---- the send queue ----

  /** Sends whose slots in the send queue have not been freed. */
  ghost function Unreclaimed(x: Qp): int {
    x.sent - x.reclaimed
  }

  /** The only thread at a queue pair has sent what it counted, and polls a completion before it
      sends again. */
  ghost predicate InStep(x: Qp, pc: Pc) {
    && x.rcnt == x.sent + One(pc.Sending?)
    && forall n: nat | SendWc(n) in x.cq :: pc.Polling? && n == x.sent
  }

  /** The completions of all marked sends not reclaimed are in the queue. */
  ghost predicate Tally(cfg: Config, s: State, q: nat, interval: nat)
    requires |s.threads| == |cfg.qpOf| && interval > 0
  {
    && q < |s.qps| && Reported(s.qps[q].cq, s.qps[q].reclaimed, s.qps[q].sent, Marks(interval))
    && (interval > 1 ==> forall t | t in Users(cfg, q) :: InStep(s.qps[q], s.threads[t].pc))
  }

  ghost predicate InOrderOf(x: Qp, marks: iset<nat>) {
    Reported(x.cq, x.reclaimed, x.sent, marks)
  }

  lemma MoveReports(l: Local, t: nat, headers: seq<Header>, mode: Mode, report: seq<Wc>, marks: iset<nat>)
    requires LocalEnabled(l, mode, report) && InOrderOf(l.qp, marks)
    requires l.thread.pc.Sending? ==> report == Completion(l.qp.sent + 1, marks)
    ensures InOrderOf(LocalMove(l, t, headers, mode, report).qp, marks)
  {
    hide Reported, LastSend, Signalled, Completion;
    var x := l.qp;
    if l.thread.pc.Polling? {
      var k := if |x.cq| < mode.pollLimit then |x.cq| else mode.pollLimit;
      assert x.cq == x.cq[..k] + x.cq[k..];
      ReportPolled(x.cq[..k], x.cq[k..], x.reclaimed, x.sent, marks);
    } else if l.thread.pc.Sending? {
      ReportNext(x.cq, x.reclaimed, x.sent + 1, marks);
    }
  }

  lemma MoveInStep(l: Local, t: nat, headers: seq<Header>, mode: Mode, report: seq<Wc>)
    requires LocalEnabled(l, mode, report) && InStep(l.qp, l.thread.pc) && |l.qp.cq| <= mode.pollLimit
    ensures var l' := LocalMove(l, t, headers, mode, report);
            InStep(l'.qp, l'.thread.pc)
  {
    hide LastSend, Signalled;
  }

  /** The marks tell which sends of a queue pair are signalled if it has a single thread, or if all
      are. */
  lemma MarkedAsCounted(l: Local, mode: Mode, report: seq<Wc>)
    requires LocalEnabled(l, mode, report) && l.thread.pc.Sending?
    requires mode.signalling.Every? && mode.signalling.interval > 0
    requires mode.signalling.interval > 1 ==> InStep(l.qp, l.thread.pc)
    ensures report == Completion(l.qp.sent + 1, Marks(mode.signalling.interval))
  {
  }

  lemma TallyMove(l: Local, t: nat, headers: seq<Header>, mode: Mode, report: seq<Wc>)
    requires LocalEnabled(l, mode, report) && |l.qp.cq| <= mode.pollLimit
    requires mode.signalling.Every? && mode.signalling.interval > 0
    requires InOrderOf(l.qp, Marks(mode.signalling.interval))
    requires mode.signalling.interval > 1 ==> InStep(l.qp, l.thread.pc)
    ensures var l' := LocalMove(l, t, headers, mode, report);
            && InOrderOf(l'.qp, Marks(mode.signalling.interval))
            && (mode.signalling.interval > 1 ==> InStep(l'.qp, l'.thread.pc))
  {
    if l.thread.pc.Sending? {
      MarkedAsCounted(l, mode, report);
    }
    MoveReports(l, t, headers, mode, report, Marks(mode.signalling.interval));
    if mode.signalling.interval > 1 {
      MoveInStep(l, t, headers, mode, report);
    }
    hide LocalMove, InOrderOf, InStep;
  }

  lemma OnlyUser(cfg: Config, q: nat, t: nat, u: nat)
    requires |Users(cfg, q)| == 1 && t in Users(cfg, q) && u in Users(cfg, q)
    ensures t == u
  {
    SubsetSize({t, u}, Users(cfg, q));
  }

  lemma TallyStep(cfg: Config, s: State, a: Action, q: nat, interval: nat)
    requires Shaped(cfg, s) && interval > 0 && Tally(cfg, s, q, interval) && Enabled(cfg, s, a)
    requires cfg.mode.signalling == Every(interval) && |s.qps[q].cq| <= cfg.mode.pollLimit
    requires interval == 1 || |Users(cfg, q)| == 1
    ensures Tally(cfg, Apply(cfg, s, a), q, interval)
  {
    match a {
      case Arrive(p, b, h) =>
        if p == q {
          ReportArrival(s.qps[q].cq, b, h.src, s.qps[q].reclaimed, s.qps[q].sent, Marks(interval));
        }
        hide Reported, Marks;
      case Move(t, report) =>
        var l := LocalOf(cfg, s, t);
        if cfg.qpOf[t] == q {
          assert InOrderOf(l.qp, Marks(interval));
          assert t in Users(cfg, q);
          TallyMove(l, t, s.headers, cfg.mode, report);
          hide LocalMove, LocalEnabled, Reported, Marks, InStep, Users;
          forall v | interval > 1 && v in Users(cfg, q) ensures v == t {
            OnlyUser(cfg, q, t, v);
          }
        } else {
          hide LocalMove, LocalEnabled, Reported, Marks, InStep;
        }
    }
  }

  lemma {:induction false} TallyHolds(w: World, home: seq<nat>, bufs: set<nat>, s: State, steps: seq<Action>, q: nat,
                                      interval: nat)
    requires Setup(w.cfg, w.blocks, bufs) && Homes(w.cfg, home) && Reached(w, s)
    requires interval > 0 && w.cfg.mode.signalling == Every(interval) && Tally(w.cfg, s, q, interval)
    requires interval == 1 || |Users(w.cfg, q)| == 1
    requires PollsAll(w.cfg, w.blocks, home, q) && Legal(w.cfg, s, steps)
    ensures Tally(w.cfg, After(w.cfg, s, steps), q, interval)
    decreases |steps|
  {
    if steps != [] {
      ReachedCrowd(w, home, bufs, s, q);
      TallyStep(w.cfg, s, steps[0], q, interval);
      Next(w, s, steps[0]);
      hide Tally, Enabled, Apply, Reachable, PollsAll, Users;
      TallyHolds(w, home, bufs, Apply(w.cfg, s, steps[0]), steps[1..], q, interval);
    }
  }

  /** When every send is signalled, the sends not reclaimed are those whose completions are in the
      queue. */
  lemma {:induction false} AllReported(cq: seq<Wc>, lo: nat, hi: nat, marks: iset<nat>)
    requires Reported(cq, lo, hi, marks) && forall n | lo < n <= hi :: n in marks
    ensures hi - lo <= Sends(cq)
  {
    if lo < hi {
      assert SendWc(lo + 1) in cq;
      assert cq == [cq[0]] + cq[1..];
      ReportPolled([cq[0]], cq[1..], lo, hi, marks);
      assert [cq[0]][1..] == [];
      var next := if cq[0].SendWc? then cq[0].number else lo;
      assert LastSend([cq[0]], lo) == LastSend([], next);
      AscendingBounds(cq[1..], next, hi, hi, marks);
      AllReported(cq[1..], next, hi, marks);
    }
  }

  /** With a single thread at most one interval of sends is unreclaimed; where every send is
      signalled, at most one for each thread. */
  lemma TallyBounds(cfg: Config, s: State, q: nat, interval: nat)
    requires Shaped(cfg, s) && 0 < interval < COUNTER_RANGE && Tally(cfg, s, q, interval)
    requires interval == 1 || |Users(cfg, q)| == 1
    requires Sends(s.qps[q].cq) <= |Users(cfg, q)|
    ensures Unreclaimed(s.qps[q]) <= if interval == 1 then |Users(cfg, q)| else interval
  {
    var x := s.qps[q];
    if interval == 1 {
      AllReported(x.cq, x.reclaimed, x.sent, Marks(1));
    } else {
      var t :| t in Users(cfg, q);
      var n := SignalledSoon(x.reclaimed, interval);
      assert n in Marks(interval);
      if n <= x.sent {
        assert SendWc(n) in x.cq;
      }
    }
  }

  /** Threads of `q0` other than `u` and requests at `q0` itself are all it takes. */
  lemma StartIsStocked(w: World, home: seq<nat>, bufs: set<nat>, u: nat, q0: nat) returns (s: State, b: nat)
    requires Given(w, home, bufs, u, q0)
    ensures q0 < |home| && Poised(w, s, q0, home[q0], {})
    ensures Stocked(w, s, q0, b)
    ensures s.qps[q0].rcnt == s.qps[q0].sent == s.qps[q0].reclaimed == 0
  {
    hide Reachable, EmptyGroup;
    s := Start(w.cfg, w.blocks, w.headers);
    StartIsReady(w, home, bufs, u, q0);
    ReadyIsPoised(w, home, s, u, q0);
    b :| b in w.blocks[q0];
    assert b in s.qps[q0].posted;
    StartInv(w.cfg, w.blocks, w.headers, bufs);
    PostedInBufs(w.cfg, bufs, s, q0, b);
  }

  /** A response that is not signalled. */
  lemma Silent(w: World, s: State, q0: nat, g: nat, busy: set<nat>, b: nat, t: nat, busy': set<nat>)
      returns (s': State)
    requires Poised(w, s, q0, g, busy) && t in Users(w.cfg, q0) && t in busy && busy' == busy - {t}
    requires Stocked(w, s, q0, b) && ValidConfig(w.cfg) && !Reporting(w.cfg.mode, s.qps[q0].rcnt)
    ensures q0 < |s'.qps| && Poised(w, s', q0, g, busy') && Stocked(w, s', q0, b)
    ensures s'.qps[q0] == s.qps[q0].(sent := s.qps[q0].sent + 1)
  {
    hide Reached, Users, Reporting, EmptyGroup;
    s' := Release(w, s, q0, g, busy, t);
    assert s.qps[q0].cq + [] == s.qps[q0].cq;
  }

  lemma NotYet(n: nat, interval: nat)
    requires 0 < n < interval < COUNTER_RANGE
    ensures !Signalled(n, interval)
  {
    DivUnique(n, interval, 0, n);
  }

  lemma NotAgain(n: nat, interval: nat)
    requires 2 <= interval && n + 1 < COUNTER_RANGE && Signalled(n, interval)
    ensures !Signalled(n + 1, interval)
  {
    RemainderSucc(n, interval);
  }

  /** A thread serves a request and answers it unsignalled. */
  lemma PassAlone(w: World, s: State, u: nat, q0: nat, g: nat, b: nat) returns (s': State)
    requires Poised(w, s, q0, g, {}) && Stocked(w, s, q0, b) && u in Users(w.cfg, q0)
    requires ValidConfig(w.cfg) && !Reporting(w.cfg.mode, s.qps[q0].rcnt + 1)
    ensures Poised(w, s', q0, g, {}) && Stocked(w, s', q0, b)
    ensures s'.qps[q0] == s.qps[q0].(rcnt := s.qps[q0].rcnt + 1, sent := s.qps[q0].sent + 1)
  {
    hide Poised, Users, Reporting;
    s' := Engage(w, s, q0, g, {}, b, u, {u});
    s' := Silent(w, s', q0, g, {u}, b, u, {});
  }

  /** One thread serves and answers requests one by one, short of the first signalled one. */
  lemma {:induction false} OneByOne(w: World, home: seq<nat>, bufs: set<nat>, u: nat, q0: nat, interval: nat, n: nat)
      returns (s: State, b: nat)
    requires Given(w, home, bufs, u, q0) && w.cfg.mode.signalling == Every(interval) && n < interval
    ensures q0 < |home| && Poised(w, s, q0, home[q0], {})
    ensures Stocked(w, s, q0, b)
    ensures s.qps[q0].rcnt == s.qps[q0].sent == n && s.qps[q0].reclaimed == 0
  {
    assert u in Users(w.cfg, q0);
    hide Given, Users, Poised, Stocked;
    if n == 0 {
      s, b := StartIsStocked(w, home, bufs, u, q0);
    } else {
      s, b := OneByOne(w, home, bufs, u, q0, interval, n - 1);
      NotYet(n, interval);
      s := PassAlone(w, s, u, q0, home[q0], b);
    }
  }

  /** The whole first interval is unreclaimed when its last response has been sent. */
  lemma FillInterval(w: World, home: seq<nat>, bufs: set<nat>, u: nat, q0: nat, interval: nat) returns (s: State)
    requires Given(w, home, bufs, u, q0) && w.cfg.mode.signalling == Every(interval)
    ensures Reached(w, s) && q0 < |s.qps| && Unreclaimed(s.qps[q0]) == interval
  {
    hide Reachable, EmptyGroup;
    var b;
    s, b := OneByOne(w, home, bufs, u, q0, interval, interval - 1);
    s := Engage(w, s, q0, home[q0], {}, b, u, {u});
    s := Release(w, s, q0, home[q0], {u}, u);
  }

  /** Where every response is signalled, each thread can leave one unreclaimed. */
  lemma FillFromThreads(w: World, home: seq<nat>, bufs: set<nat>, u: nat, q0: nat) returns (s: State)
    requires Given(w, home, bufs, u, q0) && w.cfg.mode.signalling == Every(1)
    ensures Reached(w, s) && q0 < |s.qps| && Unreclaimed(s.qps[q0]) == |Users(w.cfg, q0)|
  {
    hide Reachable, EmptyGroup;
    var b;
    var users := Users(w.cfg, q0);
    s, b := StartIsStocked(w, home, bufs, u, q0);
    s := EngageAll(w, s, q0, home[q0], {}, b, users);
    s := ReleaseAll(w, s, q0, home[q0], {} + users, users);
  }

  /** Two threads at a queue pair can count past every signalled send before either sends. */
  lemma {:induction false} NeverSignalled(w: World, home: seq<nat>, bufs: set<nat>, u: nat, v: nat, q0: nat,
                                          interval: nat, n: nat) returns (s: State, b: nat)
    requires Given(w, home, bufs, u, q0) && w.cfg.mode.signalling == Every(interval) && interval >= 2
    requires v != u && v in Users(w.cfg, q0) && n + 1 < COUNTER_RANGE
    ensures q0 < |home| && Poised(w, s, q0, home[q0], {})
    ensures Stocked(w, s, q0, b)
    ensures n <= s.qps[q0].rcnt == s.qps[q0].sent <= n + 1 && s.qps[q0].reclaimed == 0
    decreases n
  {
    assert u in Users(w.cfg, q0);
    hide Reached, Users, EmptyGroup, Homes, Setup, Gives, Poised, Signalled;
    if n == 0 {
      s, b := StartIsStocked(w, home, bufs, u, q0);
    } else {
      s, b := NeverSignalled(w, home, bufs, u, v, q0, interval, n - 1);
      if s.qps[q0].sent < n {
        s := PassOne(w, s, u, v, q0, home[q0], b, interval);
      }
    }
  }

  lemma PassOne(w: World, s: State, u: nat, v: nat, q0: nat, g: nat, b: nat, interval: nat) returns (s': State)
    requires Poised(w, s, q0, g, {}) && Stocked(w, s, q0, b)
    requires ValidConfig(w.cfg) && w.cfg.mode.signalling == Every(interval) && interval >= 2
    requires u in Users(w.cfg, q0) && v in Users(w.cfg, q0) && v != u
    requires s.qps[q0].rcnt == s.qps[q0].sent && s.qps[q0].sent + 2 < COUNTER_RANGE
    ensures Poised(w, s', q0, g, {}) && Stocked(w, s', q0, b)
    ensures s.qps[q0].sent < s'.qps[q0].sent == s'.qps[q0].rcnt <= s.qps[q0].sent + 2
    ensures s'.qps[q0].reclaimed == s.qps[q0].reclaimed
  {
    hide Poised, Users;
    var n := s.qps[q0].rcnt + 1;
    if Signalled(n, interval) {
      NotAgain(n, interval);
      s' := PassTogether(w, s, u, v, q0, g, b);
    } else {
      s' := PassAlone(w, s, u, q0, g, b);
    }
  }

  /** Both threads count before either sends. */
  lemma PassTogether(w: World, s: State, u: nat, v: nat, q0: nat, g: nat, b: nat) returns (s': State)
    requires Poised(w, s, q0, g, {}) && Stocked(w, s, q0, b)
    requires ValidConfig(w.cfg) && !Reporting(w.cfg.mode, s.qps[q0].rcnt + 2)
    requires u in Users(w.cfg, q0) && v in Users(w.cfg, q0) && v != u
    ensures Poised(w, s', q0, g, {}) && Stocked(w, s', q0, b)
    ensures s'.qps[q0] == s.qps[q0].(rcnt := s.qps[q0].rcnt + 2, sent := s.qps[q0].sent + 2)
  {
    hide Poised, Users, Reporting;
    s' := Engage(w, s, q0, g, {}, b, u, {u});
    s' := Engage(w, s', q0, g, {u}, b, v, {u, v});
    s' := Silent(w, s', q0, g, {u, v}, b, v, {u});
    s' := Silent(w, s', q0, g, {u}, b, u, {});
  }

  lemma AnotherUser(cfg: Config, q: nat, u: nat) returns (v: nat)
    requires u in Users(cfg, q) && |Users(cfg, q)| > 1
    ensures v in Users(cfg, q) && v != u
  {
    assert |Users(cfg, q) - {u}| > 0;
    v :| v in Users(cfg, q) - {u};
  }

  /** A send queue suffices in every run exactly when it holds an interval, for a queue pair with
      one thread, or a send for each thread, where every response is signalled; otherwise no
      depth does. */
  lemma SendQueueFitsIff(w: World, home: seq<nat>, bufs: set<nat>, u: nat, q0: nat, interval: nat, depth: nat)
    requires Given(w, home, bufs, u, q0) && w.cfg.mode.signalling == Every(interval)
    requires PollsAll(w.cfg, w.blocks, home, q0) && depth + 2 < COUNTER_RANGE
    ensures (forall s | Reached(w, s) :: Unreclaimed(s.qps[q0]) <= depth)
       <==> if interval == 1 then |Users(w.cfg, q0)| <= depth else |Users(w.cfg, q0)| == 1 && interval <= depth
  {
    OwnIsNotEmpty(w, home, bufs, u, q0);
    assert u in Users(w.cfg, q0);
    hide Reachable, GroupBufs, Users, EmptyGroup;
    if interval == 1 || |Users(w.cfg, q0)| == 1 {
      forall s | Reached(w, s)
        ensures Unreclaimed(s.qps[q0]) <= if interval == 1 then |Users(w.cfg, q0)| else interval {
        SendsBounded(w, home, bufs, s, q0, interval);
      }
      if interval == 1 {
        var s := FillFromThreads(w, home, bufs, u, q0);
      } else {
        var s := FillInterval(w, home, bufs, u, q0, interval);
      }
    } else {
      var v := AnotherUser(w.cfg, q0, u);
      var s, b := NeverSignalled(w, home, bufs, u, v, q0, interval, depth + 1);
    }
  }

  lemma SendsBounded(w: World, home: seq<nat>, bufs: set<nat>, s: State, q: nat, interval: nat)
    requires Setup(w.cfg, w.blocks, bufs) && Homes(w.cfg, home) && Reached(w, s) && q < |s.qps|
    requires 0 < interval < COUNTER_RANGE && w.cfg.mode.signalling == Every(interval)
    requires interval == 1 || |Users(w.cfg, q)| == 1
    requires PollsAll(w.cfg, w.blocks, home, q)
    ensures Unreclaimed(s.qps[q]) <= if interval == 1 then |Users(w.cfg, q)| else interval
  {
    var start := Start(w.cfg, w.blocks, w.headers);
    var steps :| Legal(w.cfg, start, steps) && After(w.cfg, start, steps) == s;
    StartIsReached(w);
    assert Tally(w.cfg, start, q, interval);
    hide Tally, GroupBufs, PollsAll, Users, Unreclaimed;
    TallyHolds(w, home, bufs, start, steps, q, interval);
    ReachedCrowd(w, home, bufs, s, q);
    TallyBounds(w.cfg, s, q, interval);
  }
}
