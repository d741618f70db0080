/** Buffers move between queue pairs, but never out of the group whose threads poll them. */
module GlobalStrictGroups {
  import opened Pipeline
  import opened Bags
  import opened GlobalStrict
  import opened GlobalStrictBuffers

  /** Queue pair `q` belongs to group `home[q]`: no thread of another group polls it. */
  ghost predicate Homes(cfg: Config, home: seq<nat>) {
    && ValidConfig(cfg) && |home| == cfg.qps
    && forall t | 0 <= t < |cfg.qpOf| :: home[cfg.qpOf[t]] == cfg.groupOf[t]
  }

  /** The buffers that the queue pairs of group `g` start with. */
  ghost function GroupBufs(blocks: seq<set<nat>>, home: seq<nat>, g: nat): set<nat>
    requires |home| == |blocks|
  {
    set q, b | 0 <= q < |blocks| && home[q] == g && b in blocks[q] :: b
  }

  ghost predicate Within(bag: multiset<nat>, bufs: set<nat>) {
    forall b | b in bag :: b in bufs
  }

  ghost predicate AtHome(bag: multiset<nat>, blocks: seq<set<nat>>, home: seq<nat>, g: nat)
    requires |home| == |blocks|
  {
    Within(bag, GroupBufs(blocks, home, g))
  }

  /** Everything a group's queue pairs, threads and lists hold comes from its own buffers. */
  ghost predicate Homed(cfg: Config, blocks: seq<set<nat>>, home: seq<nat>, s: State)
    requires Shaped(cfg, s) && |home| == |blocks| == cfg.qps
  {
    && (forall q | 0 <= q < |s.qps| :: AtHome(QpBag(s.qps[q]), blocks, home, home[q]))
    && (forall t | 0 <= t < |s.threads| :: AtHome(ThreadBag(s.threads[t]), blocks, home, cfg.groupOf[t]))
    && (forall g | 0 <= g < |s.groups| :: AtHome(GroupBag(s.groups[g]), blocks, home, g))
  }

  lemma AtHomeParts(a: multiset<nat>, b: multiset<nat>, c: multiset<nat>, blocks: seq<set<nat>>,
                    home: seq<nat>, g: nat)
    requires |home| == |blocks|
    ensures AtHome(a + b + c, blocks, home, g)
       <==> AtHome(a, blocks, home, g) && AtHome(b, blocks, home, g) && AtHome(c, blocks, home, g)
  {
    hide GroupBufs;
    if AtHome(a + b + c, blocks, home, g) {
      assert forall x | x in a :: x in a + b + c;
      assert forall x | x in b :: x in a + b + c;
      assert forall x | x in c :: x in a + b + c;
    }
  }

  ghost predicate LocalAtHome(l: Local, blocks: seq<set<nat>>, home: seq<nat>, g: nat)
    requires |home| == |blocks|
  {
    && AtHome(QpBag(l.qp), blocks, home, g) && AtHome(ThreadBag(l.thread), blocks, home, g)
    && AtHome(GroupBag(l.group), blocks, home, g)
  }

  lemma LocalStaysHome(l: Local, l': Local, blocks: seq<set<nat>>, home: seq<nat>, g: nat)
    requires |home| == |blocks| && LocalBag(l') == LocalBag(l) && LocalAtHome(l, blocks, home, g)
    ensures LocalAtHome(l', blocks, home, g)
  {
    hide AtHome, QpBag, ThreadBag, GroupBag;
    AtHomeParts(QpBag(l.qp), ThreadBag(l.thread), GroupBag(l.group), blocks, home, g);
    AtHomeParts(QpBag(l'.qp), ThreadBag(l'.thread), GroupBag(l'.group), blocks, home, g);
  }

  lemma PutHome(cfg: Config, blocks: seq<set<nat>>, home: seq<nat>, s: State, t: nat, l: Local)
    requires Homes(cfg, home) && |blocks| == cfg.qps && Shaped(cfg, s) && Homed(cfg, blocks, home, s)
    requires t < |s.threads| && |l.group.metaCQ| == cfg.priorities
    requires LocalAtHome(l, blocks, home, cfg.groupOf[t])
    ensures Homed(cfg, blocks, home, Put(cfg, s, t, l))
  {
    hide AtHome, QpBag, ThreadBag, GroupBag;
    assert home[cfg.qpOf[t]] == cfg.groupOf[t];
  }

  lemma LocalSize(cfg: Config, s: State, t: nat, report: seq<Wc>)
    requires Shaped(cfg, s) && Enabled(cfg, s, Move(t, report))
    ensures var l' := LocalMove(LocalOf(cfg, s, t), t, s.headers, cfg.mode, report);
            |l'.group.metaCQ| == cfg.priorities && Apply(cfg, s, Move(t, report)) == Put(cfg, s, t, l')
  {
  }

  lemma MoveStaysHome(cfg: Config, blocks: seq<set<nat>>, home: seq<nat>, s: State, t: nat, report: seq<Wc>)
    requires Homes(cfg, home) && |blocks| == cfg.qps && Shaped(cfg, s) && Homed(cfg, blocks, home, s)
    requires Enabled(cfg, s, Move(t, report)) && InRange(LocalOf(cfg, s, t))
    ensures Homed(cfg, blocks, home, Apply(cfg, s, Move(t, report)))
  {
    var l := LocalOf(cfg, s, t);
    var l' := LocalMove(l, t, s.headers, cfg.mode, report);
    MoveKeeps(l, t, s.headers, cfg.mode, report);
    LocalSize(cfg, s, t, report);
    assert home[cfg.qpOf[t]] == cfg.groupOf[t];
    assert LocalAtHome(l, blocks, home, cfg.groupOf[t]);
    hide LocalMove, LocalBag, LocalAtHome, Homed, Put, Apply;
    LocalStaysHome(l, l', blocks, home, cfg.groupOf[t]);
    PutHome(cfg, blocks, home, s, t, l');
  }

  lemma StepStaysHome(cfg: Config, blocks: seq<set<nat>>, home: seq<nat>, s: State, a: Action)
    requires Homes(cfg, home) && |blocks| == cfg.qps && Shaped(cfg, s) && Homed(cfg, blocks, home, s)
    requires Enabled(cfg, s, a) && (a.Move? ==> InRange(LocalOf(cfg, s, a.t)))
    ensures Homed(cfg, blocks, home, Apply(cfg, s, a))
  {
    match a {
      case Arrive(q, b, h) =>
        ArriveKeeps(s.qps[q], b, h.src);
        hide Received, QpBag, ThreadBag, GroupBag, AtHome;
      case Move(t, report) =>
        MoveStaysHome(cfg, blocks, home, s, t, report);
    }
  }

  lemma {:induction false} StayHome(cfg: Config, blocks: seq<set<nat>>, home: seq<nat>, bufs: set<nat>, s: State,
                                    steps: seq<Action>)
    requires Homes(cfg, home) && |blocks| == cfg.qps && Inv(cfg, bufs, s) && Homed(cfg, blocks, home, s)
    requires Legal(cfg, s, steps)
    ensures Homed(cfg, blocks, home, After(cfg, s, steps))
    decreases |steps|
  {
    if steps != [] {
      var a := steps[0];
      if a.Move? {
        ThreadInRange(cfg, s, bufs, a.t);
      }
      InvStep(cfg, bufs, s, a);
      StepStaysHome(cfg, blocks, home, s, a);
      hide Inv, Enabled, Homed, Apply, InRange;
      StayHome(cfg, blocks, home, bufs, Apply(cfg, s, a), steps[1..]);
    }
  }

  lemma BlockInGroup(blocks: seq<set<nat>>, home: seq<nat>, q: nat)
    requires |home| == |blocks| && q < |blocks|
    ensures forall b | b in blocks[q] :: b in GroupBufs(blocks, home, home[q])
  {
  }

  lemma StartsHome(cfg: Config, blocks: seq<set<nat>>, headers: seq<Header>, home: seq<nat>)
    requires Homes(cfg, home) && |blocks| == cfg.qps
    ensures Homed(cfg, blocks, home, Start(cfg, blocks, headers))
  {
    var s := Start(cfg, blocks, headers);
    forall q | 0 <= q < |s.qps| ensures AtHome(QpBag(s.qps[q]), blocks, home, home[q]) {
      BlockInGroup(blocks, home, q);
      assert QpBag(s.qps[q]) == multiset(blocks[q]);
    }
    forall g | 0 <= g < |s.groups| ensures GroupBag(s.groups[g]) == multiset{} {
      SumEmpty(s.groups[g].metaCQ, ListBag);
    }
    hide GroupBufs;
  }

  lemma ReachableHomed(cfg: Config, blocks: seq<set<nat>>, headers: seq<Header>, home: seq<nat>, bufs: set<nat>,
                       s: State)
    requires Homes(cfg, home) && Setup(cfg, blocks, bufs) && Reachable(cfg, blocks, headers, s)
    ensures Inv(cfg, bufs, s) && Homed(cfg, blocks, home, s)
  {
    var start := Start(cfg, blocks, headers);
    StartInv(cfg, blocks, headers, bufs);
    StartsHome(cfg, blocks, headers, home);
    ReachableInv(cfg, blocks, headers, bufs, s);
    hide Inv, Homed;
    var steps :| Legal(cfg, start, steps) && After(cfg, start, steps) == s;
    StayHome(cfg, blocks, home, bufs, start, steps);
  }

  /** A bag of distinct buffers, all of them in `part`. */
  lemma DistinctWithin(bag: multiset<nat>, bufs: set<nat>, part: set<nat>)
    requires bag <= multiset(bufs) && Within(bag, part)
    ensures bag <= multiset(part)
  {
    forall b ensures bag[b] <= multiset(part)[b] {
      assert bag[b] <= multiset(bufs)[b] <= 1;
    }
  }

  /** Buffers never leave their group: what a queue pair's receive queue and completion queue
      hold between them, and what it lost, are buffers that its own group started with, each
      once. */
  lemma BuffersStayInGroup(cfg: Config, blocks: seq<set<nat>>, headers: seq<Header>, home: seq<nat>,
                           bufs: set<nat>, s: State, q: nat)
    requires Homes(cfg, home) && Setup(cfg, blocks, bufs) && Reachable(cfg, blocks, headers, s) && q < |s.qps|
    ensures q < |home| == |blocks|
    ensures s.qps[q].posted + Held(s.qps[q].cq) + s.qps[q].lost <= multiset(GroupBufs(blocks, home, home[q]))
    ensures |s.qps[q].posted| + Receives(s.qps[q].cq) + |s.qps[q].lost| <= |GroupBufs(blocks, home, home[q])|
  {
    ReachableHomed(cfg, blocks, headers, home, bufs, s);
    hide Told;
    SumHolds(s.qps, QpBag, q);
    hide Sum, GroupBufs, Held;
    DistinctWithin(QpBag(s.qps[q]), bufs, GroupBufs(blocks, home, home[q]));
    Part(QpBag(s.qps[q]), multiset(GroupBufs(blocks, home, home[q])));
  }

  /** While a request is served its buffer is not posted, and the group has no more buffers than
      fit. */
  lemma RoomToRepost(cfg: Config, blocks: seq<set<nat>>, home: seq<nat>, bufs: set<nat>, s: State, t: nat)
    requires Homes(cfg, home) && |blocks| == cfg.qps && Inv(cfg, bufs, s) && Homed(cfg, blocks, home, s)
    requires t < |s.threads| && s.threads[t].pc.Serving?
    requires |GroupBufs(blocks, home, cfg.groupOf[t])| <= cfg.mode.rxDepth
    ensures |s.qps[cfg.qpOf[t]].posted| < cfg.mode.rxDepth
  {
    var q, g := cfg.qpOf[t], cfg.groupOf[t];
    assert home[q] == g;
    assert All(s) == multiset(bufs);
    assert AtHome(QpBag(s.qps[q]), blocks, home, g) && AtHome(ThreadBag(s.threads[t]), blocks, home, g);
    hide Inv, Homed, GroupBufs, AtHome;
    TwoPlaces(s, q, t);
    BagSizes(s.qps[q], s.threads[t]);
    var x, y := QpBag(s.qps[q]), ThreadBag(s.threads[t]);
    hide QpBag, ThreadBag, All;
    AtHomeParts(x, y, multiset{}, blocks, home, g);
    assert x + y + multiset{} == x + y;
    OwnSize(x + y, blocks, home, g, bufs);
  }

  lemma OwnSize(bag: multiset<nat>, blocks: seq<set<nat>>, home: seq<nat>, g: nat, bufs: set<nat>)
    requires |home| == |blocks| && bag <= multiset(bufs) && AtHome(bag, blocks, home, g)
    ensures |bag| <= |GroupBufs(blocks, home, g)|
  {
    hide GroupBufs;
    DistinctWithin(bag, bufs, GroupBufs(blocks, home, g));
    Part(bag, multiset(GroupBufs(blocks, home, g)));
  }

  lemma TwoPlaces(s: State, q: nat, t: nat)
    requires q < |s.qps| && t < |s.threads|
    ensures QpBag(s.qps[q]) + ThreadBag(s.threads[t]) <= All(s)
  {
    hide QpBag, ThreadBag, GroupBag;
    SumHolds(s.qps, QpBag, q);
    SumHolds(s.threads, ThreadBag, t);
    hide Sum;
  }

  lemma BagSizes(qp: Qp, th: Thread)
    ensures |QpBag(qp)| >= |qp.posted|
    ensures th.pc.Serving? ==> |ThreadBag(th)| >= 1
    ensures |QpBag(qp) + ThreadBag(th)| == |QpBag(qp)| + |ThreadBag(th)|
  {
    hide Held;
  }

  lemma NothingLostStep(cfg: Config, blocks: seq<set<nat>>, home: seq<nat>, bufs: set<nat>, s: State, a: Action,
                        q: nat)
    requires Homes(cfg, home) && |blocks| == cfg.qps && Inv(cfg, bufs, s) && Homed(cfg, blocks, home, s)
    requires q < |s.qps| && |GroupBufs(blocks, home, home[q])| <= cfg.mode.rxDepth
    requires Enabled(cfg, s, a) && s.qps[q].lost == multiset{}
    ensures Apply(cfg, s, a).qps[q].lost == multiset{}
  {
    assert Shaped(cfg, s);
    hide Inv, Homed, GroupBufs;
    if a.Move? && cfg.qpOf[a.t] == q {
      assert home[q] == cfg.groupOf[a.t];
      if s.threads[a.t].pc.Serving? {
        RoomToRepost(cfg, blocks, home, bufs, s, a.t);
      }
      LostLocally(LocalOf(cfg, s, a.t), a.t, s.headers, cfg.mode, a.report);
    }
    LostAfter(cfg, s, a, q);
  }

  lemma LostAfter(cfg: Config, s: State, a: Action, q: nat)
    requires Shaped(cfg, s) && Enabled(cfg, s, a) && q < |s.qps|
    ensures Apply(cfg, s, a).qps[q].lost
         == if a.Move? && cfg.qpOf[a.t] == q
            then LocalMove(LocalOf(cfg, s, a.t), a.t, s.headers, cfg.mode, a.report).qp.lost
            else s.qps[q].lost
  {
    hide LocalMove, LocalEnabled;
  }

  lemma LostLocally(l: Local, t: nat, headers: seq<Header>, mode: Mode, report: seq<Wc>)
    requires LocalEnabled(l, mode, report)
    requires l.thread.pc.Serving? ==> |l.qp.posted| < mode.rxDepth
    ensures LocalMove(l, t, headers, mode, report).qp.lost == l.qp.lost
  {
  }

  lemma {:induction false} NothingLostOver(cfg: Config, blocks: seq<set<nat>>, home: seq<nat>, bufs: set<nat>,
                                           s: State, steps: seq<Action>, q: nat)
    requires Homes(cfg, home) && |blocks| == cfg.qps && Inv(cfg, bufs, s) && Homed(cfg, blocks, home, s)
    requires q < |s.qps| && |GroupBufs(blocks, home, home[q])| <= cfg.mode.rxDepth
    requires Legal(cfg, s, steps) && s.qps[q].lost == multiset{}
    ensures After(cfg, s, steps).qps[q].lost == multiset{}
    decreases |steps|
  {
    if steps != [] {
      var a := steps[0];
      if a.Move? {
        ThreadInRange(cfg, s, bufs, a.t);
      }
      InvStep(cfg, bufs, s, a);
      StepStaysHome(cfg, blocks, home, s, a);
      NothingLostStep(cfg, blocks, home, bufs, s, a, q);
      hide Inv, Enabled, Homed, Apply, InRange, GroupBufs;
      NothingLostOver(cfg, blocks, home, bufs, Apply(cfg, s, a), steps[1..], q);
    }
  }

  /** When a group's buffers fit one receive queue, every repost of its threads succeeds. */
  lemma NothingLost(cfg: Config, blocks: seq<set<nat>>, headers: seq<Header>, home: seq<nat>, bufs: set<nat>,
                    s: State, q: nat)
    requires Homes(cfg, home) && Setup(cfg, blocks, bufs) && Reachable(cfg, blocks, headers, s) && q < |s.qps|
    requires q < |home| == |blocks| && |GroupBufs(blocks, home, home[q])| <= cfg.mode.rxDepth
    ensures s.qps[q].lost == multiset{}
  {
    var start := Start(cfg, blocks, headers);
    StartInv(cfg, blocks, headers, bufs);
    StartsHome(cfg, blocks, headers, home);
    hide Inv, Homed, GroupBufs;
    var steps :| Legal(cfg, start, steps) && After(cfg, start, steps) == s;
    NothingLostOver(cfg, blocks, home, bufs, start, steps, q);
  }
}
