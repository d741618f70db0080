/** A thread on its own serves what is waiting in its group, unless it repeats empty polls. */
module GlobalStrictProgress {
  import opened OrderedIndex
  import opened Pipeline
  import opened Sequences
  import opened GlobalStrict
  import opened GlobalStrictOrder
  import opened GlobalStrictBuffers
  import D = Dispatch
  import StrictDrain

  ghost predicate Alone(steps: seq<Action>, t: nat) {
    forall i | 0 <= i < |steps| :: steps[i].Move? && steps[i].t == t
  }

  /** The rest of a run of thread `t` alone, from where it sees `l`. */
  ghost predicate Goes(cfg: Config, s: State, t: nat, l: Local, steps: seq<Action>, end: State) {
    && Shaped(cfg, s) && t < |s.threads| && |l.group.metaCQ| == cfg.priorities && Alone(steps, t)
    && Legal(cfg, Put(cfg, s, t, l), steps) && After(cfg, Put(cfg, s, t, l), steps) == end
  }

  lemma Sets(cfg: Config, s: State, t: nat, steps: seq<Action>)
    requires Shaped(cfg, s) && t < |s.threads| && Alone(steps, t) && Legal(cfg, s, steps)
    ensures Goes(cfg, s, t, LocalOf(cfg, s, t), steps, After(cfg, s, steps))
  {
    assert Put(cfg, s, t, LocalOf(cfg, s, t)) == s;
  }

  /** Its next step. */
  lemma Passes(cfg: Config, s: State, t: nat, l: Local, steps: seq<Action>, end: State) returns (report: seq<Wc>)
    requires Goes(cfg, s, t, l, steps, end) && steps != []
    ensures LocalEnabled(l, cfg.mode, report)
    ensures Goes(cfg, s, t, LocalMove(l, t, s.headers, cfg.mode, report), steps[1..], end)
  {
    var r := Put(cfg, s, t, l);
    var a := steps[0];
    assert a.Move? && a.t == t;
    report := a.report;
    assert LocalOf(cfg, r, t) == l;
    var l' := LocalMove(l, t, s.headers, cfg.mode, report);
    StaysShaped(cfg, l, t, s.headers, report);
    hide LocalMove, LocalEnabled;
    assert Apply(cfg, r, a) == Put(cfg, s, t, l');
    assert forall i | 0 <= i < |steps[1..]| :: steps[1..][i] == steps[i + 1];
  }

  lemma StaysShaped(cfg: Config, l: Local, t: nat, headers: seq<Header>, report: seq<Wc>)
    requires LocalEnabled(l, cfg.mode, report)
    ensures |LocalMove(l, t, headers, cfg.mode, report).group.metaCQ| == |l.group.metaCQ|
  {
  }

  lemma Ends(cfg: Config, s: State, t: nat, l: Local, end: State)
    requires Goes(cfg, s, t, l, [], end)
    ensures end == Put(cfg, s, t, l)
  {
  }

  // ---- one round ----

  /** Send completions only. */
  ghost predicate OnlySends(pipe: seq<Wc>) {
    forall i | 0 <= i < |pipe| :: pipe[i].SendWc?
  }

  /** A batch of send completions is handled one a step, and then the thread turns to the lists. */
  lemma {:induction false} HandlesSends(cfg: Config, s: State, t: nat, l: Local, steps: seq<Action>, end: State)
    requires Goes(cfg, s, t, l, steps, end) && l.thread.pc.Handling? && OnlySends(l.thread.batch)
    requires |steps| >= |l.thread.batch| + 1
    ensures Goes(cfg, s, t, l.(thread := Thread(ToPop, [])), steps[|l.thread.batch| + 1..], end)
    decreases |l.thread.batch|
  {
    hide Goes;
    var report := Passes(cfg, s, t, l, steps, end);
    var batch := l.thread.batch;
    if batch == [] {
      assert LocalMove(l, t, s.headers, cfg.mode, report) == l.(thread := Thread(ToPop, []));
    } else {
      var l' := l.(thread := Thread(Handling, batch[1..]));
      assert LocalMove(l, t, s.headers, cfg.mode, report) == l';
      HandlesSends(cfg, s, t, l', steps[1..], end);
      assert steps[1..][|batch[1..]| + 1..] == steps[|batch| + 1..];
    }
  }

  /** How many completions a poll takes. */
  ghost function PollSize(qp: Qp, mode: Mode): nat {
    if |qp.cq| < mode.pollLimit then |qp.cq| else mode.pollLimit
  }

  /** A poll that finds no requests leads to the lists all the same, unless empty polls are
      repeated. */
  lemma PollsAway(cfg: Config, s: State, t: nat, l: Local, steps: seq<Action>, end: State)
    requires Goes(cfg, s, t, l, steps, end) && l.thread == Thread(Polling, []) && OnlySends(l.qp.cq)
    requires !cfg.mode.again || PollSize(l.qp, cfg.mode) > 0
    requires |steps| >= PollSize(l.qp, cfg.mode) + 2
    ensures var k := PollSize(l.qp, cfg.mode);
            Goes(cfg, s, t, l.(qp := Polled(l.qp, k), thread := Thread(ToPop, [])), steps[k + 2..], end)
  {
    hide Goes, LastSend;
    var k := PollSize(l.qp, cfg.mode);
    var report := Passes(cfg, s, t, l, steps, end);
    var l' := l.(qp := Polled(l.qp, k), thread := Thread(Handling, l.qp.cq[..k]));
    assert LocalMove(l, t, s.headers, cfg.mode, report) == l';
    HandlesSends(cfg, s, t, l', steps[1..], end);
    assert steps[1..][k + 1..] == steps[k + 2..];
  }

  /** The group without the oldest request of its least class, which was served. */
  ghost function ServedOnce(g: Group): Group
    requires D.Backlogged(g.metaCQ) != {}
  {
    var c := Least(D.Backlogged(g.metaCQ));
    var rest := g.metaCQ[c := g.metaCQ[c][1..]];
    Group(rest, D.Backlogged(rest), FREE, g.events + [D.Iterate],
          g.services + [D.Service(c, g.metaCQ[c][0])])
  }

  lemma ErasedIndex(g: Group, c: nat)
    requires c in D.Backlogged(g.metaCQ) && g.skipList == D.Backlogged(g.metaCQ)
    ensures var rest := g.metaCQ[c := g.metaCQ[c][1..]];
            D.Backlogged(rest) == if rest[c] == [] then g.skipList - {c} else g.skipList
  {
    var rest := g.metaCQ[c := g.metaCQ[c][1..]];
    assert forall d | 0 <= d < |rest| && d != c :: rest[d] == g.metaCQ[d];
  }

  /** From the lists to the point of reposting. */
  lemma TakesOldest(cfg: Config, s: State, t: nat, l: Local, steps: seq<Action>, end: State)
    requires Goes(cfg, s, t, l, steps, end) && l.thread == Thread(ToPop, []) && |steps| >= 5
    requires l.group.holder == FREE && D.Backlogged(l.group.metaCQ) != {}
    requires l.group.skipList == D.Backlogged(l.group.metaCQ)
    ensures var c := Least(D.Backlogged(l.group.metaCQ));
            Goes(cfg, s, t, Local(l.qp, Thread(Serving(c, l.group.metaCQ[c][0]), []), ServedOnce(l.group)),
                 steps[5..], end)
  {
    hide Goes;
    var g := l.group;
    var c := Least(D.Backlogged(g.metaCQ));
    var x := g.metaCQ[c][0];
    var rest := g.metaCQ[c := g.metaCQ[c][1..]];
    ErasedIndex(g, c);
    var r1 := Passes(cfg, s, t, l, steps, end);
    var l1 := l.(thread := Thread(Testing, []), group := g.(holder := t));
    var r2 := Passes(cfg, s, t, l1, steps[1..], end);
    var l2 := l1.(thread := Thread(Popping(c), []));
    var r3 := Passes(cfg, s, t, l2, steps[1..][1..], end);
    var g3 := l2.group.(metaCQ := rest, events := g.events + [D.Iterate],
                        services := g.services + [D.Service(c, x)]);
    var l3 := l2.(thread := Thread(Erasing(c, x), []), group := g3);
    hide Pop, Test;
    var r4 := Passes(cfg, s, t, l3, steps[1..][1..][1..], end);
    var l4 := l3.(thread := Thread(Leaving(c, x), []), group := g3.(skipList := D.Backlogged(rest)));
    var r5 := Passes(cfg, s, t, l4, steps[1..][1..][1..][1..], end);
    assert steps[1..][1..][1..][1..][1..] == steps[5..];
    assert LocalMove(l4, t, s.headers, cfg.mode, r5)
        == Local(l.qp, Thread(Serving(c, x), []), ServedOnce(g));
  }

  /** The buffer is reposted, the response sent, and the thread is back at its poll. */
  lemma AnswersIt(cfg: Config, s: State, t: nat, l: Local, steps: seq<Action>, end: State)
    requires Goes(cfg, s, t, l, steps, end) && l.thread.pc.Serving? && l.thread.batch == [] && |steps| == 2
    requires OnlySends(l.qp.cq)
    ensures Shaped(cfg, s) && t < |s.threads|
    ensures var x := LocalOf(cfg, end, t);
            && end == Put(cfg, s, t, x) && x.thread == Thread(Polling, []) && x.group == l.group && OnlySends(x.qp.cq)
  {
    var b := l.thread.pc.x.bufID;
    var r1 := Passes(cfg, s, t, l, steps, end);
    var l1 := l.(qp := Repost(l.qp, b, cfg.mode.rxDepth), thread := Thread(Sending(l.thread.pc.x), []));
    assert LocalMove(l, t, s.headers, cfg.mode, r1) == l1;
    assert l1.qp.cq == l.qp.cq;
    var r2 := Passes(cfg, s, t, l1, steps[1..], end);
    var l2 := l1.(qp := Answered(l1.qp, r2), thread := Thread(Polling, []));
    assert LocalMove(l1, t, s.headers, cfg.mode, r2) == l2;
    ReportIsSend(l1, cfg.mode, r2);
    assert steps[1..][1..] == [];
    Ends(cfg, s, t, l2, end);
    hide Goes, Repost;
  }

  lemma ReportIsSend(l: Local, mode: Mode, report: seq<Wc>)
    requires LocalEnabled(l, mode, report) && l.thread.pc.Sending?
    ensures OnlySends(report)
  {
    hide Signalled;
  }

  /** Thread `t` is about to poll, no request waits in its completion queue, and nobody holds its
      group's lock. */
  ghost predicate Idles(cfg: Config, s: State, t: nat) {
    && Shaped(cfg, s) && t < |s.threads| && s.threads[t] == Thread(Polling, [])
    && OnlySends(s.qps[cfg.qpOf[t]].cq) && s.groups[cfg.groupOf[t]].holder == FREE
    && s.groups[cfg.groupOf[t]].skipList == D.Backlogged(s.groups[cfg.groupOf[t]].metaCQ)
  }

  /** The steps of its next round. */
  ghost function RoundLength(cfg: Config, s: State, t: nat): nat
    requires Idles(cfg, s, t)
  {
    PollSize(s.qps[cfg.qpOf[t]], cfg.mode) + 9
  }

  /** Every run of the thread alone through one round serves the oldest request of the least class
      in the group's lists, whichever thread filed it, and ends at the poll again. */
  lemma RoundServes(cfg: Config, s: State, t: nat, steps: seq<Action>)
    requires Idles(cfg, s, t) && D.Backlogged(s.groups[cfg.groupOf[t]].metaCQ) != {}
    requires !cfg.mode.again || PollSize(s.qps[cfg.qpOf[t]], cfg.mode) > 0
    requires Alone(steps, t) && Legal(cfg, s, steps) && |steps| == RoundLength(cfg, s, t)
    ensures var end := After(cfg, s, steps);
            && Idles(cfg, end, t) && end.groups[cfg.groupOf[t]] == ServedOnce(s.groups[cfg.groupOf[t]])
            && forall u | 0 <= u < |s.threads| :: end.threads[u] == s.threads[u]
  {
    var end := After(cfg, s, steps);
    var l := LocalOf(cfg, s, t);
    var k := PollSize(l.qp, cfg.mode);
    var c := Least(D.Backlogged(l.group.metaCQ));
    hide Legal, After;
    Sets(cfg, s, t, steps);
    PollsAway(cfg, s, t, l, steps, end);
    var l1 := l.(qp := Polled(l.qp, k), thread := Thread(ToPop, []));
    TakesOldest(cfg, s, t, l1, steps[k + 2..], end);
    var l2 := Local(l1.qp, Thread(Serving(c, l.group.metaCQ[c][0]), []), ServedOnce(l.group));
    AnswersIt(cfg, s, t, l2, steps[k + 2..][5..], end);
    hide Goes, ServedOnce, Polled;
    SkipListAfter(l.group);
  }

  lemma SkipListAfter(g: Group)
    requires D.Backlogged(g.metaCQ) != {}
    ensures ServedOnce(g).holder == FREE && ServedOnce(g).skipList == D.Backlogged(ServedOnce(g).metaCQ)
  {
  }

  // ---- running on ----

  lemma {:induction false} Joined(cfg: Config, s: State, a: seq<Action>, b: seq<Action>)
    requires Shaped(cfg, s) && Legal(cfg, s, a) && Legal(cfg, After(cfg, s, a), b)
    ensures Legal(cfg, s, a + b) && After(cfg, s, a + b) == After(cfg, After(cfg, s, a), b)
    decreases |a|
  {
    hide Enabled, Apply, Shaped;
    if a == [] {
      assert a + b == b;
    } else {
      assert (a + b)[0] == a[0] && (a + b)[1..] == a[1..] + b;
      Joined(cfg, Apply(cfg, s, a[0]), a[1..], b);
    }
  }

  /** While nobody else of its group has the lock, a thread alone can take any number of steps. */
  lemma {:induction false} RunsOn(cfg: Config, bufs: set<nat>, s: State, t: nat, n: nat) returns (steps: seq<Action>)
    requires Inv(cfg, bufs, s) && t < |s.threads|
    requires s.groups[cfg.groupOf[t]].holder == FREE || s.groups[cfg.groupOf[t]].holder == t
    ensures |steps| == n && Alone(steps, t) && Legal(cfg, s, steps)
    decreases n
  {
    if n == 0 {
      steps := [];
    } else {
      var a := NextMove(cfg, bufs, s, t);
      InvStep(cfg, bufs, s, a);
      hide Inv, Enabled, Apply, Shaped, Legal, Alone;
      var rest := RunsOn(cfg, bufs, Apply(cfg, s, a), t, n - 1);
      StepFirst(cfg, s, t, a, rest);
      steps := [a] + rest;
    }
  }

  lemma StepFirst(cfg: Config, s: State, t: nat, a: Action, rest: seq<Action>)
    requires Shaped(cfg, s) && Enabled(cfg, s, a) && a.Move? && a.t == t && Alone(rest, t)
    requires Legal(cfg, Apply(cfg, s, a), rest)
    ensures Legal(cfg, s, [a] + rest) && Alone([a] + rest, t)
  {
    hide Enabled, Apply, Shaped;
    assert ([a] + rest)[1..] == rest;
  }

  lemma NextMove(cfg: Config, bufs: set<nat>, s: State, t: nat) returns (a: Action)
    requires Inv(cfg, bufs, s) && t < |s.threads|
    requires s.groups[cfg.groupOf[t]].holder == FREE || s.groups[cfg.groupOf[t]].holder == t
    ensures a.Move? && a.t == t && Enabled(cfg, s, a)
    ensures var holder := Apply(cfg, s, a).groups[cfg.groupOf[t]].holder; holder == FREE || holder == t
  {
    hide All, Told, Sequential;
    assert GroupOk(s.groups[cfg.groupOf[t]], PcAt(s, cfg.groupOf[t]), cfg.priorities);
    assert HoldsLock(s.threads[t].pc) ==> PcAt(s, cfg.groupOf[t]) == s.threads[t].pc;
    SomeReport(cfg, s, t);
    var report :| Enabled(cfg, s, Move(t, report));
    a := Move(t, report);
    LockStep(LocalOf(cfg, s, t), t, s.headers, cfg.mode, report);
    hide LocalMove, LocalEnabled;
  }

  lemma IndexedWhenFree(cfg: Config, bufs: set<nat>, s: State, g: nat)
    requires Inv(cfg, bufs, s) && g < |s.groups| && s.groups[g].holder == FREE
    ensures s.groups[g].skipList == D.Backlogged(s.groups[g].metaCQ)
  {
    hide All, Told, Sequential;
    assert GroupOk(s.groups[g], PcAt(s, g), cfg.priorities);
  }

  ghost function Iterates(n: nat): seq<D.Event> {
    seq(n, _ => D.Iterate)
  }

  /** One service after the other: the lists as the drain of the sequential queue empties them. */
  lemma DrainStep(g: Group, h: Group)
    requires D.Backlogged(g.metaCQ) != {}
    requires var g1 := ServedOnce(g);
             && h.services == g1.services + StrictDrain.Flatten(g1.metaCQ, 0)
             && h.events == g1.events + Iterates(D.Total(g1.metaCQ, 0))
    ensures D.Total(g.metaCQ, 0) == D.Total(ServedOnce(g).metaCQ, 0) + 1
    ensures h.services == g.services + StrictDrain.Flatten(g.metaCQ, 0)
    ensures h.events == g.events + Iterates(D.Total(g.metaCQ, 0))
  {
    var c := Least(D.Backlogged(g.metaCQ));
    var rest := g.metaCQ[c := g.metaCQ[c][1..]];
    forall i | 0 <= i < c ensures g.metaCQ[i] == [] {
      assert i !in D.Backlogged(g.metaCQ);
    }
    StrictDrain.HeadOfFlatten(g.metaCQ, 0, c);
    D.TotalUpdate(g.metaCQ, 0, c, g.metaCQ[c][1..]);
    var x := D.Service(c, g.metaCQ[c][0]);
    Assoc(g.services, [x], StrictDrain.Flatten(rest, 0));
    Assoc(g.events, [D.Iterate], Iterates(D.Total(rest, 0)));
    assert [D.Iterate] + Iterates(D.Total(rest, 0)) == Iterates(D.Total(rest, 0) + 1);
  }

  /** Where empty polls are not repeated, a thread alone drains its group, one service for each
      request, in the order of a stable sort by class. */
  lemma {:induction false} DrainsAlone(cfg: Config, bufs: set<nat>, s: State, t: nat) returns (steps: seq<Action>)
    requires Inv(cfg, bufs, s) && Idles(cfg, s, t) && !cfg.mode.again
    ensures Alone(steps, t) && Legal(cfg, s, steps)
    ensures var g, h := s.groups[cfg.groupOf[t]], After(cfg, s, steps).groups[cfg.groupOf[t]];
            && D.Backlogged(h.metaCQ) == {} && h.services == g.services + StrictDrain.Flatten(g.metaCQ, 0)
            && h.events == g.events + Iterates(D.Total(g.metaCQ, 0))
    decreases D.Total(s.groups[cfg.groupOf[t]].metaCQ, 0)
  {
    var g := s.groups[cfg.groupOf[t]];
    if D.Backlogged(g.metaCQ) == {} {
      steps := [];
      NothingToDrain(g);
    } else {
      var round := RunsOn(cfg, bufs, s, t, RoundLength(cfg, s, t));
      RoundServes(cfg, s, t, round);
      InvHolds(cfg, bufs, s, round);
      var mid := After(cfg, s, round);
      RoundCounts(g);
      hide Inv, Idles, ServedOnce, D.Total, D.Backlogged, Legal, After, Alone, RoundLength;
      var rest := DrainsAlone(cfg, bufs, mid, t);
      steps := round + rest;
      Joined(cfg, s, round, rest);
      BothAlone(round, rest, t);
      DrainStep(g, After(cfg, s, steps).groups[cfg.groupOf[t]]);
    }
  }

  lemma BothAlone(a: seq<Action>, b: seq<Action>, t: nat)
    requires Alone(a, t) && Alone(b, t)
    ensures Alone(a + b, t)
  {
  }

  lemma RoundCounts(g: Group)
    requires D.Backlogged(g.metaCQ) != {}
    ensures D.Total(ServedOnce(g).metaCQ, 0) < D.Total(g.metaCQ, 0)
  {
    var c := Least(D.Backlogged(g.metaCQ));
    D.TotalUpdate(g.metaCQ, 0, c, g.metaCQ[c][1..]);
  }

  lemma NothingToDrain(g: Group)
    requires D.Backlogged(g.metaCQ) == {}
    ensures g.services == g.services + StrictDrain.Flatten(g.metaCQ, 0)
    ensures g.events == g.events + Iterates(D.Total(g.metaCQ, 0))
  {
    D.NothingWaiting(g.metaCQ, 0);
    assert |StrictDrain.Flatten(g.metaCQ, 0)| == 0;
  }

  /** From every reachable state. */
  lemma GroupDrains(cfg: Config, blocks: seq<set<nat>>, headers: seq<Header>, bufs: set<nat>, s: State, t: nat)
      returns (steps: seq<Action>)
    requires Setup(cfg, blocks, bufs) && Reachable(cfg, blocks, headers, s) && !cfg.mode.again
    requires t < |s.threads| && s.threads[t] == Thread(Polling, []) && OnlySends(s.qps[cfg.qpOf[t]].cq)
    requires s.groups[cfg.groupOf[t]].holder == FREE
    ensures Shaped(cfg, s) && Alone(steps, t) && Legal(cfg, s, steps)
    ensures var g, h := s.groups[cfg.groupOf[t]], After(cfg, s, steps).groups[cfg.groupOf[t]];
            && D.Backlogged(h.metaCQ) == {} && h.services == g.services + StrictDrain.Flatten(g.metaCQ, 0)
            && h.events == g.events + Iterates(D.Total(g.metaCQ, 0))
  {
    ReachableInv(cfg, blocks, headers, bufs, s);
    IndexedWhenFree(cfg, bufs, s, cfg.groupOf[t]);
    assert Shaped(cfg, s);
    hide Reachable, Legal, After, Inv;
    steps := DrainsAlone(cfg, bufs, s, t);
  }

  /** Where they are, a thread alone with an empty completion queue changes nothing. */
  lemma {:induction false} RepeatsPoll(cfg: Config, s: State, t: nat, steps: seq<Action>)
    requires Shaped(cfg, s) && t < |s.threads| && s.threads[t] == Thread(Polling, [])
    requires s.qps[cfg.qpOf[t]].cq == [] && cfg.mode.again
    requires Alone(steps, t) && Legal(cfg, s, steps)
    ensures After(cfg, s, steps) == s
    decreases |steps|
  {
    if steps != [] {
      assert steps[0].Move? && steps[0].t == t;
      assert Apply(cfg, s, steps[0]) == s;
      assert forall i | 0 <= i < |steps[1..]| :: steps[1..][i] == steps[i + 1];
      RepeatsPoll(cfg, s, t, steps[1..]);
    }
  }

  ghost predicate ServedSince(cfg: Config, s: State, t: nat, steps: seq<Action>)
    requires Shaped(cfg, s) && t < |s.threads|
  {
    && Alone(steps, t) && Legal(cfg, s, steps)
    && |After(cfg, s, steps).groups[cfg.groupOf[t]].services| > |s.groups[cfg.groupOf[t]].services|
  }

  /** A thread with nothing to poll can serve what others have filed exactly when empty polls are
      not repeated. */
  lemma ServesOthersIff(cfg: Config, blocks: seq<set<nat>>, headers: seq<Header>, bufs: set<nat>, s: State, t: nat)
    requires Setup(cfg, blocks, bufs) && Reachable(cfg, blocks, headers, s)
    requires t < |s.threads| && s.threads[t] == Thread(Polling, []) && s.qps[cfg.qpOf[t]].cq == []
    requires s.groups[cfg.groupOf[t]].holder == FREE
    requires D.Backlogged(s.groups[cfg.groupOf[t]].metaCQ) != {}
    ensures Shaped(cfg, s) && ((exists steps :: ServedSince(cfg, s, t, steps)) <==> !cfg.mode.again)
  {
    ReachableInv(cfg, blocks, headers, bufs, s);
    assert Shaped(cfg, s);
    if cfg.mode.again {
      forall steps | Alone(steps, t) && Legal(cfg, s, steps) ensures !ServedSince(cfg, s, t, steps) {
        RepeatsPoll(cfg, s, t, steps);
      }
    } else {
      IndexedWhenFree(cfg, bufs, s, cfg.groupOf[t]);
      hide Reachable, Inv, Legal, After;
      var steps := RunsOn(cfg, bufs, s, t, RoundLength(cfg, s, t));
      RoundServes(cfg, s, t, steps);
      assert ServedSince(cfg, s, t, steps);
    }
  }
}
