/** What a thread does with the requests it polls and with those it serves, over whole runs. */
module GlobalStrictThreads {
  import opened Pipeline
  import opened Sequences
  import opened GlobalStrict
  import opened GlobalStrictBuffers
  import D = Dispatch

  /** The requests among completions, in order. */
  ghost function Requests(pipe: seq<Wc>): seq<D.RecvReq> {
    if pipe == [] then []
    else (if pipe[0].RecvWc? then [D.RecvReq(pipe[0].buf, pipe[0].src)] else []) + Requests(pipe[1..])
  }

  lemma {:induction false} RequestsConcat(a: seq<Wc>, b: seq<Wc>)
    ensures Requests(a + b) == Requests(a) + Requests(b)
  {
    if a == [] {
      assert a + b == b;
    } else {
      assert (a + b)[1..] == a[1..] + b;
      RequestsConcat(a[1..], b);
      Assoc(if a[0].RecvWc? then [D.RecvReq(a[0].buf, a[0].src)] else [], Requests(a[1..]), Requests(b));
    }
  }

  /** The requests that events file. */
  ghost function Filings(events: seq<D.Event>): seq<D.RecvReq> {
    if events == [] then []
    else (if events[0].Arrive? then [events[0].req] else []) + Filings(events[1..])
  }

  ghost function Taken(services: seq<D.Service>): seq<D.RecvReq> {
    seq(|services|, i requires 0 <= i < |services| => services[i].req)
  }

  /** What is new at the end of `after`. */
  ghost function News<T>(before: seq<T>, after: seq<T>): seq<T> {
    if |before| <= |after| then after[|before|..] else []
  }

  // ---- one step of a thread ----

  datatype Deed = Polls | Files | Takes | Answers

  /** The requests that a step polls, files in the group's lists, takes from them, or answers. */
  ghost function Does(d: Deed, l: Local, l': Local): seq<D.RecvReq> {
    match d
    case Polls => if l.thread.pc.Polling? then Requests(l'.thread.batch) else []
    case Files => Filings(News(l.group.events, l'.group.events))
    case Takes => Taken(News(l.group.services, l'.group.services))
    case Answers => if l.thread.pc.Sending? then [l.thread.pc.x] else []
  }

  /** Polled and not filed yet. */
  ghost function InFiling(th: Thread): seq<D.RecvReq> {
    (match th.pc
     case ToFile(_, x) => [x]
     case Indexing(_, x) => [x]
     case Appending(_, x) => [x]
     case _ => []) + Requests(th.batch)
  }

  /** Taken and not answered yet. */
  ghost function InService(th: Thread): seq<D.RecvReq> {
    match th.pc
    case Erasing(_, x) => [x]
    case Leaving(_, x) => [x]
    case Serving(_, x) => [x]
    case Sending(x) => [x]
    case _ => []
  }

  lemma NoNews<T>(s: seq<T>)
    ensures News(s, s) == []
  {
  }

  lemma OneNew<T>(s: seq<T>, x: T)
    ensures News(s, s + [x]) == [x] && [x][1..] == []
  {
  }

  predicate Logs(pc: Pc) {
    pc.Appending? || pc.Testing? || pc.Popping?
  }

  /** The steps that add to the group's history of events. */
  lemma LoggedFiles(l: Local, t: nat, headers: seq<Header>, mode: Mode, report: seq<Wc>)
    requires LocalEnabled(l, mode, report) && InRange(l) && Logs(l.thread.pc)
    ensures var l' := LocalMove(l, t, headers, mode, report);
            && (if l.thread.pc.Appending? then Does(Files, l, l') == [l.thread.pc.x] else Does(Files, l, l') == [])
            && l'.thread.batch == l.thread.batch && Does(Polls, l, l') == []
  {
    var events := l.group.events;
    if l.thread.pc.Appending? {
      OneNew(events, D.Arrive(l.thread.pc.c, l.thread.pc.x));
      assert Filings([D.Arrive(l.thread.pc.c, l.thread.pc.x)]) == [l.thread.pc.x];
    } else {
      NoNews(events);
      OneNew(events, D.Iterate);
      assert Filings([D.Iterate]) == [];
    }
    hide Requests, Filings, News;
  }

  lemma QuietFiles(l: Local, t: nat, headers: seq<Header>, mode: Mode, report: seq<Wc>)
    requires LocalEnabled(l, mode, report) && InRange(l) && !Logs(l.thread.pc)
    ensures var l' := LocalMove(l, t, headers, mode, report);
            Does(Files, l, l') == [] && InFiling(l'.thread) == InFiling(l.thread) + Does(Polls, l, l')
  {
    hide Append, Pop, Test, Signalled, LastSend, Repost;
    NoNews(l.group.events);
    assert Filings([]) == [];
    hide Filings, News;
  }

  lemma MoveFiles(l: Local, t: nat, headers: seq<Header>, mode: Mode, report: seq<Wc>)
    requires LocalEnabled(l, mode, report) && InRange(l)
    ensures var l' := LocalMove(l, t, headers, mode, report);
            Does(Files, l, l') + InFiling(l'.thread) == InFiling(l.thread) + Does(Polls, l, l')
  {
    if Logs(l.thread.pc) {
      LoggedFiles(l, t, headers, mode, report);
      hide Does, Requests;
    } else {
      QuietFiles(l, t, headers, mode, report);
      hide *;
    }
  }

  lemma MoveAnswers(l: Local, t: nat, headers: seq<Header>, mode: Mode, report: seq<Wc>)
    requires LocalEnabled(l, mode, report)
    ensures var l' := LocalMove(l, t, headers, mode, report);
            Does(Answers, l, l') + InService(l'.thread) == InService(l.thread) + Does(Takes, l, l')
  {
    hide Signalled, LastSend;
    NoNews(l.group.services);
    if l.thread.pc.Popping? {
      var c := l.thread.pc.c;
      if c < |l.group.metaCQ| && l.group.metaCQ[c] != [] {
        OneNew(l.group.services, D.Service(c, l.group.metaCQ[c][0]));
      }
    }
  }

  lemma PollTakesFirst(l: Local, t: nat, headers: seq<Header>, mode: Mode, report: seq<Wc>)
    requires LocalEnabled(l, mode, report) && InRange(l) && l.thread.pc.Polling?
    ensures var l' := LocalMove(l, t, headers, mode, report);
            l'.thread.batch + l'.qp.cq == l.qp.cq
  {
    hide LastSend;
  }

  lemma SendAddsNone(cq: seq<Wc>, report: seq<Wc>)
    requires report == [] || (|report| == 1 && report[0].SendWc?)
    ensures Requests(cq + report) == Requests(cq)
  {
    RequestsConcat(cq, report);
    assert report == [] || report[1..] == [];
  }

  lemma MovePolls(l: Local, t: nat, headers: seq<Header>, mode: Mode, report: seq<Wc>)
    requires LocalEnabled(l, mode, report) && InRange(l)
    ensures var l' := LocalMove(l, t, headers, mode, report);
            Does(Polls, l, l') + Requests(l'.qp.cq) == Requests(l.qp.cq)
  {
    if l.thread.pc.Polling? {
      var l' := LocalMove(l, t, headers, mode, report);
      PollTakesFirst(l, t, headers, mode, report);
      RequestsConcat(l'.thread.batch, l'.qp.cq);
      hide LocalMove, Requests;
    } else {
      if l.thread.pc.Sending? {
        SendAddsNone(l.qp.cq, report);
      }
      hide Signalled, LastSend, Requests, Handle, Append, Test, Pop, Erase;
    }
  }

  // ---- runs ----

  /** What a step of the whole system does, on the part of thread `t`. */
  ghost function StepDoes(d: Deed, cfg: Config, s: State, a: Action, t: nat): seq<D.RecvReq>
    requires Shaped(cfg, s) && Enabled(cfg, s, a) && t < |s.threads|
  {
    if a.Move? && a.t == t then Does(d, LocalOf(cfg, s, t), LocalOf(cfg, Apply(cfg, s, a), t)) else []
  }

  ghost function RunDoes(d: Deed, cfg: Config, s: State, steps: seq<Action>, t: nat): seq<D.RecvReq>
    requires Shaped(cfg, s) && Legal(cfg, s, steps) && t < |s.threads|
    decreases |steps|
  {
    if steps == [] then []
    else StepDoes(d, cfg, s, steps[0], t) + RunDoes(d, cfg, Apply(cfg, s, steps[0]), steps[1..], t)
  }

  lemma MovedLocally(cfg: Config, s: State, a: Action)
    requires Shaped(cfg, s) && Enabled(cfg, s, a) && a.Move?
    ensures LocalOf(cfg, Apply(cfg, s, a), a.t) == LocalMove(LocalOf(cfg, s, a.t), a.t, s.headers, cfg.mode, a.report)
  {
    hide LocalMove, LocalEnabled;
  }

  lemma OthersStay(cfg: Config, s: State, a: Action, t: nat)
    requires Shaped(cfg, s) && Enabled(cfg, s, a) && t < |s.threads| && !(a.Move? && a.t == t)
    ensures Apply(cfg, s, a).threads[t] == s.threads[t]
  {
    hide LocalMove, LocalEnabled;
  }

  lemma StepFiles(cfg: Config, bufs: set<nat>, s: State, a: Action, t: nat)
    requires Inv(cfg, bufs, s) && Enabled(cfg, s, a) && t < |s.threads|
    ensures StepDoes(Files, cfg, s, a, t) + InFiling(Apply(cfg, s, a).threads[t])
         == InFiling(s.threads[t]) + StepDoes(Polls, cfg, s, a, t)
  {
    if a.Move? && a.t == t {
      ThreadInRange(cfg, s, bufs, t);
      MovedLocally(cfg, s, a);
      MoveFiles(LocalOf(cfg, s, t), t, s.headers, cfg.mode, a.report);
    } else {
      OthersStay(cfg, s, a, t);
    }
    hide Inv, Apply, Enabled, LocalMove, InRange, Does, InFiling;
  }

  /** A thread files what it polls, in that order. */
  lemma {:induction false} FilesWhatItPolls(cfg: Config, bufs: set<nat>, s: State, steps: seq<Action>, t: nat)
    requires Inv(cfg, bufs, s) && Legal(cfg, s, steps) && t < |s.threads|
    ensures RunDoes(Files, cfg, s, steps, t) + InFiling(After(cfg, s, steps).threads[t])
         == InFiling(s.threads[t]) + RunDoes(Polls, cfg, s, steps, t)
    decreases |steps|
  {
    if steps != [] {
      var a, s' := steps[0], Apply(cfg, s, steps[0]);
      StepFiles(cfg, bufs, s, a, t);
      InvStep(cfg, bufs, s, a);
      hide Inv, Apply, Enabled, StepDoes, InFiling;
      FilesWhatItPolls(cfg, bufs, s', steps[1..], t);
      Chain(StepDoes(Files, cfg, s, a, t), InFiling(s'.threads[t]), InFiling(s.threads[t]),
            StepDoes(Polls, cfg, s, a, t), RunDoes(Files, cfg, s', steps[1..], t),
               InFiling(After(cfg, s, steps).threads[t]), RunDoes(Polls, cfg, s', steps[1..], t));
    }
  }

  /** A thread answers what it takes, each request once and in that order. */
  lemma {:induction false} AnswersWhatItTakes(cfg: Config, s: State, steps: seq<Action>, t: nat)
    requires Shaped(cfg, s) && Legal(cfg, s, steps) && t < |s.threads|
    ensures RunDoes(Answers, cfg, s, steps, t) + InService(After(cfg, s, steps).threads[t])
         == InService(s.threads[t]) + RunDoes(Takes, cfg, s, steps, t)
    decreases |steps|
  {
    hide InService, Does;
    if steps != [] {
      var a, s' := steps[0], Apply(cfg, s, steps[0]);
      if a.Move? && a.t == t {
        MovedLocally(cfg, s, a);
        MoveAnswers(LocalOf(cfg, s, t), t, s.headers, cfg.mode, a.report);
      } else {
        OthersStay(cfg, s, a, t);
      }
      hide Apply, Enabled, LocalMove;
      AnswersWhatItTakes(cfg, s', steps[1..], t);
      Chain(StepDoes(Answers, cfg, s, a, t), InService(s'.threads[t]), InService(s.threads[t]),
            StepDoes(Takes, cfg, s, a, t), RunDoes(Answers, cfg, s', steps[1..], t),
               InService(After(cfg, s, steps).threads[t]), RunDoes(Takes, cfg, s', steps[1..], t));
    }
  }

  /** The requests that arrive at queue pair `q`. */
  ghost function Arrivals(steps: seq<Action>, q: nat): seq<D.RecvReq> {
    if steps == [] then []
    else (if steps[0].Arrive? && steps[0].q == q then [D.RecvReq(steps[0].buf, steps[0].header.src)] else [])
         + Arrivals(steps[1..], q)
  }

  /** Thread `t` and no other polls queue pair `q`. */
  ghost predicate Only(cfg: Config, q: nat, t: nat) {
    t < |cfg.qpOf| && forall u | 0 <= u < |cfg.qpOf| :: cfg.qpOf[u] == q <==> u == t
  }

  lemma StepPolls(cfg: Config, bufs: set<nat>, s: State, a: Action, q: nat, t: nat)
    requires Inv(cfg, bufs, s) && Enabled(cfg, s, a) && Only(cfg, q, t) && q < |s.qps|
    ensures StepDoes(Polls, cfg, s, a, t) + Requests(Apply(cfg, s, a).qps[q].cq)
         == Requests(s.qps[q].cq) + Arrivals([a], q)
  {
    OneArrival(a, q);
    match a {
      case Arrive(p, b, h) =>
        ReceivedLast(s.qps[p].cq, b, h.src);
        hide Requests, Does, Arrivals, Inv;
      case Move(u, report) =>
        MovePollsAt(cfg, bufs, s, u, report, q, t);
        hide *;
    }
  }

  lemma OneArrival(a: Action, q: nat)
    ensures Arrivals([a], q) == if a.Arrive? && a.q == q then [D.RecvReq(a.buf, a.header.src)] else []
  {
    assert [a][1..] == [];
  }

  lemma MovePollsAt(cfg: Config, bufs: set<nat>, s: State, u: nat, report: seq<Wc>, q: nat, t: nat)
    requires Inv(cfg, bufs, s) && Enabled(cfg, s, Move(u, report)) && Only(cfg, q, t) && q < |s.qps|
    ensures StepDoes(Polls, cfg, s, Move(u, report), t) + Requests(Apply(cfg, s, Move(u, report)).qps[q].cq)
         == Requests(s.qps[q].cq)
  {
    if u == t {
      ThreadInRange(cfg, s, bufs, t);
      MovedLocally(cfg, s, Move(u, report));
      MovePolls(LocalOf(cfg, s, t), t, s.headers, cfg.mode, report);
    }
    hide Inv, Requests, Does, LocalMove, LocalEnabled, InRange;
  }

  lemma ReceivedLast(cq: seq<Wc>, b: nat, src: nat)
    ensures Requests(cq + [RecvWc(b, src)]) == Requests(cq) + [D.RecvReq(b, src)]
  {
    RequestsConcat(cq, [RecvWc(b, src)]);
    assert [RecvWc(b, src)][1..] == [];
  }

  lemma ArrivalsFirst(steps: seq<Action>, q: nat)
    requires steps != []
    ensures Arrivals(steps, q) == Arrivals([steps[0]], q) + Arrivals(steps[1..], q)
  {
    assert [steps[0]][1..] == [];
  }

  /** A queue pair's only thread polls what arrives there, in that order. */
  lemma {:induction false} PollsWhatArrives(cfg: Config, bufs: set<nat>, s: State, steps: seq<Action>, q: nat, t: nat)
    requires Inv(cfg, bufs, s) && Legal(cfg, s, steps) && Only(cfg, q, t) && q < |s.qps|
    ensures RunDoes(Polls, cfg, s, steps, t) + Requests(After(cfg, s, steps).qps[q].cq)
         == Requests(s.qps[q].cq) + Arrivals(steps, q)
    decreases |steps|
  {
    hide Requests, Does;
    if steps != [] {
      var a, s' := steps[0], Apply(cfg, s, steps[0]);
      StepPolls(cfg, bufs, s, a, q, t);
      InvStep(cfg, bufs, s, a);
      ArrivalsFirst(steps, q);
      hide Inv, Apply, Enabled, Arrivals, StepDoes;
      PollsWhatArrives(cfg, bufs, s', steps[1..], q, t);
      Chain(StepDoes(Polls, cfg, s, a, t), Requests(s'.qps[q].cq), Requests(s.qps[q].cq),
            Arrivals([a], q), RunDoes(Polls, cfg, s', steps[1..], t),
               Requests(After(cfg, s, steps).qps[q].cq), Arrivals(steps[1..], q));
    }
  }

  /** From the start, the requests that arrive at a queue pair with one thread are filed in the
      order in which they arrive, each once: those filed, followed by those in the thread's hands
      and in the completion queue, are those that arrived. */
  lemma FiledInOrderOfArrival(cfg: Config, blocks: seq<set<nat>>, headers: seq<Header>, bufs: set<nat>,
                              steps: seq<Action>, q: nat, t: nat)
    requires Setup(cfg, blocks, bufs) && Legal(cfg, Start(cfg, blocks, headers), steps)
    requires Only(cfg, q, t) && q < cfg.qps
    ensures var s := After(cfg, Start(cfg, blocks, headers), steps);
            RunDoes(Files, cfg, Start(cfg, blocks, headers), steps, t) + InFiling(s.threads[t])
            + Requests(s.qps[q].cq) == Arrivals(steps, q)
  {
    var start := Start(cfg, blocks, headers);
    StartInv(cfg, blocks, headers, bufs);
    assert InFiling(start.threads[t]) == [] && Requests(start.qps[q].cq) == [];
    hide Inv, Legal, After, InFiling, Requests, RunDoes, Arrivals;
    FilesWhatItPolls(cfg, bufs, start, steps, t);
    PollsWhatArrives(cfg, bufs, start, steps, q, t);
    var polled := RunDoes(Polls, cfg, start, steps, t);
    assert [] + polled == polled && [] + Arrivals(steps, q) == Arrivals(steps, q);
  }

  /** From the start, a thread's answers go, one each and in order, to the senders of the requests
      it took from its group's lists, short of the one it is serving. */
  lemma AnsweredInOrder(cfg: Config, blocks: seq<set<nat>>, headers: seq<Header>, steps: seq<Action>, t: nat)
    requires ValidConfig(cfg) && |blocks| == cfg.qps && Legal(cfg, Start(cfg, blocks, headers), steps)
    requires t < |cfg.qpOf|
    ensures var s := After(cfg, Start(cfg, blocks, headers), steps);
            && RunDoes(Answers, cfg, Start(cfg, blocks, headers), steps, t) + InService(s.threads[t])
               == RunDoes(Takes, cfg, Start(cfg, blocks, headers), steps, t)
            && |InService(s.threads[t])| <= 1
  {
    var start := Start(cfg, blocks, headers);
    assert InService(start.threads[t]) == [];
    AnswersWhatItTakes(cfg, start, steps, t);
    hide RunDoes, Legal, After;
  }
}
