/** Filing and serving under the lock are linearizable: whatever the interleaving, each group
    behaves as the sequential strict priority queue. */
module GlobalStrictOrder {
  import opened OrderedIndex
  import opened Pipeline
  import opened GlobalStrict
  import D = Dispatch

  // ---- the lock ----

  /** A thread is inside the critical section exactly when it is its group's holder. */
  ghost predicate LockAgrees(cfg: Config, s: State)
    requires Shaped(cfg, s)
  {
    && (forall t | 0 <= t < |s.threads| ::
          HoldsLock(s.threads[t].pc) <==> s.groups[cfg.groupOf[t]].holder == t)
    && (forall g | 0 <= g < |s.groups| :: s.groups[g].holder == FREE
          || (0 <= s.groups[g].holder < |s.threads| && cfg.groupOf[s.groups[g].holder] == g))
  }

  /** What the step of a thread does to the lock. */
  lemma LockStep(l: Local, t: nat, headers: seq<Header>, mode: Mode, report: seq<Wc>)
    requires LocalEnabled(l, mode, report) && (HoldsLock(l.thread.pc) <==> l.group.holder == t)
    ensures var l' := LocalMove(l, t, headers, mode, report);
            && (HoldsLock(l'.thread.pc) <==> l'.group.holder == t)
            && (l'.group.holder == l.group.holder
                || (l.group.holder == FREE && l'.group.holder == t)
                || (l.group.holder == t && l'.group.holder == FREE))
            && (l.group.holder != FREE && l.group.holder != t ==> l'.group == l.group)
  {
  }

  lemma LockKept(cfg: Config, s: State, a: Action)
    requires Shaped(cfg, s) && LockAgrees(cfg, s) && Enabled(cfg, s, a)
    ensures LockAgrees(cfg, Apply(cfg, s, a))
  {
    if a.Move? {
      LockStep(LocalOf(cfg, s, a.t), a.t, s.headers, cfg.mode, a.report);
      hide LocalMove, LocalEnabled;
    }
  }

  // ---- one group ----

  /** What the index says, depending on how far the lock's holder has got. */
  ghost predicate IndexAgrees(group: Group, pc: Pc) {
    var waiting := D.Backlogged(group.metaCQ);
    match pc
    case Appending(c, _) => c < |group.metaCQ| && group.skipList == waiting + {c}
    case Erasing(c, _) => c < |group.metaCQ| && group.skipList == waiting + {c}
    case Popping(c) => group.skipList == waiting && waiting != {} && c == Least(waiting)
    case AssertionFailed => false
    case _ => group.skipList == waiting
  }

  ghost function Idle(n: nat): D.State {
    D.Empty(n)
  }

  /** The lists and the services are those of the sequential queue, given the same filings
      and services one at a time. */
  ghost predicate Sequential(metaCQ: D.Queues, events: seq<D.Event>, services: seq<D.Service>, n: nat) {
    && D.Admissible(n, events)
    && D.Run(D.Strict, Idle(n), events).queues == metaCQ
    && D.Outputs(D.Strict, Idle(n), events) == services
  }

  ghost predicate GroupOk(group: Group, pc: Pc, n: nat) {
    && |group.metaCQ| == n && IndexAgrees(group, pc)
    && Sequential(group.metaCQ, group.events, group.services, n)
  }

  lemma AdmissibleNext(n: nat, es: seq<D.Event>, e: D.Event)
    ensures D.Admissible(n, es + [e]) <==> D.Admissible(n, es) && (e.Arrive? ==> e.class_ < n)
  {
    assert (es + [e])[|es|] == e;
    assert forall i | 0 <= i < |es| :: (es + [e])[i] == es[i];
  }

  lemma {:induction false} RunNext(m: D.Mode, s: D.State, es: seq<D.Event>, e: D.Event)
    requires D.WellFormed(m, s) && D.Admissible(|s.queues|, es) && D.Admissible(|s.queues|, es + [e])
    requires e.Arrive? ==> e.class_ < |s.queues|
    ensures D.Run(m, s, es + [e]) == D.Step(m, D.Run(m, s, es), e)
    decreases |es|
  {
    hide D.Step, D.WellFormed;
    if es == [] {
      assert es + [e] == [e] && [e][1..] == [];
    } else {
      assert (es + [e])[1..] == es[1..] + [e];
      RunNext(m, D.Step(m, s, es[0]), es[1..], e);
    }
  }

  lemma {:induction false} OutputsNext(m: D.Mode, s: D.State, es: seq<D.Event>, e: D.Event)
    requires D.WellFormed(m, s) && D.Admissible(|s.queues|, es) && D.Admissible(|s.queues|, es + [e])
    ensures D.Outputs(m, s, es + [e])
         == D.Outputs(m, s, es) + (if e.Iterate? then D.Served(m, D.Run(m, s, es)) else [])
    decreases |es|
  {
    hide D.Step, D.Served, D.WellFormed;
    if es == [] {
      assert es + [e] == [e] && [e][1..] == [];
    } else {
      assert (es + [e])[1..] == es[1..] + [e];
      OutputsNext(m, D.Step(m, s, es[0]), es[1..], e);
    }
  }

  lemma HistoryNext(group: Group, n: nat, e: D.Event)
    requires Sequential(group.metaCQ, group.events, group.services, n) && |group.metaCQ| == n
    requires e.Arrive? ==> e.class_ < n
    ensures D.Admissible(n, group.events + [e])
    ensures var t := D.Run(D.Strict, Idle(n), group.events);
            && D.Run(D.Strict, Idle(n), group.events + [e]) == D.Step(D.Strict, t, e)
            && D.Outputs(D.Strict, Idle(n), group.events + [e])
               == group.services + if e.Iterate? then D.Served(D.Strict, t) else []
  {
    AdmissibleNext(n, group.events, e);
    RunNext(D.Strict, Idle(n), group.events, e);
    OutputsNext(D.Strict, Idle(n), group.events, e);
  }

  lemma AppendOk(l: Local, c: nat, x: D.RecvReq, n: nat)
    requires GroupOk(l.group, Appending(c, x), n)
    ensures GroupOk(Append(l, c, x).group, Filed, n)
  {
    HistoryNext(l.group, n, D.Arrive(c, x));
    var m := l.group.metaCQ[c := l.group.metaCQ[c] + [x]];
    assert D.Backlogged(m) == D.Backlogged(l.group.metaCQ) + {c};
  }

  lemma TestOk(l: Local, n: nat)
    requires GroupOk(l.group, Testing, n)
    ensures GroupOk(Test(l).group, Test(l).thread.pc, n)
  {
    if l.group.skipList == {} {
      HistoryNext(l.group, n, D.Iterate);
    }
  }

  /** The service takes the oldest request of the least class that has any. */
  lemma PopOk(l: Local, c: nat, n: nat)
    requires GroupOk(l.group, Popping(c), n)
    ensures GroupOk(Pop(l, c).group, Pop(l, c).thread.pc, n)
  {
    HistoryNext(l.group, n, D.Iterate);
    var qs := l.group.metaCQ;
    assert c in D.Backlogged(qs);
    var rest := qs[c := qs[c][1..]];
    assert forall d | 0 <= d < |qs| && d != c :: rest[d] == qs[d];
    assert D.Backlogged(rest) + {c} == D.Backlogged(qs);
  }

  lemma EraseOk(l: Local, c: nat, x: D.RecvReq, n: nat)
    requires GroupOk(l.group, Erasing(c, x), n)
    ensures GroupOk(Erase(l, c, x).group, Leaving(c, x), n)
  {
  }

  /** The holder's pc, as far as the index is concerned. */
  ghost function HolderPc(l: Local, t: nat): Pc {
    if l.group.holder == t then l.thread.pc else Polling
  }

  lemma GroupStep(l: Local, t: nat, headers: seq<Header>, mode: Mode, report: seq<Wc>, n: nat)
    requires LocalEnabled(l, mode, report) && (HoldsLock(l.thread.pc) <==> l.group.holder == t)
    requires l.group.holder == t || l.group.holder == FREE
    requires GroupOk(l.group, HolderPc(l, t), n)
    requires l.thread.pc.Indexing? ==> l.thread.pc.c < n
    ensures var l' := LocalMove(l, t, headers, mode, report);
            GroupOk(l'.group, HolderPc(l', t), n)
  {
    hide Sequential;
    match l.thread.pc {
      case Appending(c, x) => AppendOk(l, c, x, n);
      case Testing => TestOk(l, n);
      case Popping(c) => PopOk(l, c, n);
      case Erasing(c, x) => EraseOk(l, c, x, n);
      case _ =>
    }
  }

  // ---- all groups ----

  ghost function PcAt(s: State, g: nat): Pc
    requires g < |s.groups|
  {
    var h := s.groups[g].holder;
    if 0 <= h < |s.threads| then s.threads[h].pc else Polling
  }

  ghost predicate Ordered(cfg: Config, s: State)
    requires Shaped(cfg, s)
  {
    && LockAgrees(cfg, s)
    && forall g | 0 <= g < |s.groups| :: GroupOk(s.groups[g], PcAt(s, g), cfg.priorities)
  }

  lemma OrderedStep(cfg: Config, s: State, a: Action)
    requires Shaped(cfg, s) && Ordered(cfg, s) && Enabled(cfg, s, a)
    requires a.Move? && s.threads[a.t].pc.Indexing? ==> s.threads[a.t].pc.c < cfg.priorities
    ensures Ordered(cfg, Apply(cfg, s, a))
  {
    hide GroupOk;
    LockKept(cfg, s, a);
    if a.Move? {
      var t := a.t;
      var l := LocalOf(cfg, s, t);
      LockStep(l, t, s.headers, cfg.mode, a.report);
      assert PcAt(s, cfg.groupOf[t]) == HolderPc(l, t) || (l.group.holder != t && l.group.holder != FREE);
      if l.group.holder == t || l.group.holder == FREE {
        GroupStep(l, t, s.headers, cfg.mode, a.report, cfg.priorities);
      }
      hide LocalMove, LocalEnabled;
    }
  }
}
