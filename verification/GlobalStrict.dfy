/** Global strict priority: any number of threads poll their queue pairs, file requests into
    the lists of their group and take them out again under the group's lock. Each thread
    reposts the buffer it served on its own queue pair, so buffers move between queue pairs. */
module GlobalStrict {
  import opened OrderedIndex
  import opened Pipeline
  import opened Words
  import D = Dispatch

  /** What the network writes into a buffer: bytes 52 and 53, and who sent it. */
  datatype Header = Header(upper: Byte, lower: Byte, src: nat)

  function Priority(h: Header): nat {
    h.lower as nat + h.upper as nat * 0x100
  }

  /** `rcnt` counts the requests served at the queue pair, `sent` the responses posted there;
      `reclaimed` is the number of the last of them whose completion was polled, which frees the
      send queue slots of all up to it. A buffer whose repost finds the receive queue full is
      `lost`. */
  datatype Qp = Qp(posted: multiset<nat>, cq: seq<Wc>, rcnt: nat, lost: multiset<nat>, sent: nat, reclaimed: nat)

  /** Where a thread is in its loop. From `Indexing` to `Filed`, and from `Testing` to
      `Leaving` or `LeavingEmpty`, it holds the lock. */
  datatype Pc =
    | Polling
    | Handling
    | ToFile(c: nat, x: D.RecvReq)
    | Indexing(c: nat, x: D.RecvReq)
    | Appending(c: nat, x: D.RecvReq)
    | Filed
    | ToPop
    | Testing
    | Popping(c: nat)
    | Erasing(c: nat, x: D.RecvReq)
    | Leaving(c: nat, x: D.RecvReq)
    | LeavingEmpty
    | Serving(c: nat, x: D.RecvReq)
    | Sending(x: D.RecvReq)
    | AssertionFailed

  datatype Thread = Thread(pc: Pc, batch: seq<Wc>)

  const FREE := -1

  /** `events` and `services` are histories: what was filed and when the lists were served,
      in the order in which it took effect, and what each service took. */
  datatype Group = Group(metaCQ: D.Queues, skipList: set<nat>, holder: int,
                         events: seq<D.Event>, services: seq<D.Service>)

  /** Which sends are signalled: one in `interval`, or, when threads share a queue pair and
      count its requests without synchronisation, there is no telling. */
  datatype Signalling = Every(interval: nat) | AnyTime

  /** How many completions a poll takes at most, whether an empty poll is repeated at once
      instead of serving what others have filed, and how many receives a queue pair holds. */
  datatype Mode = Mode(pollLimit: nat, again: bool, signalling: Signalling, rxDepth: nat)

  datatype Config = Config(qpOf: seq<nat>, groupOf: seq<nat>, qps: nat, groups: nat,
                           priorities: nat, mode: Mode)

  datatype State = State(qps: seq<Qp>, threads: seq<Thread>, groups: seq<Group>, headers: seq<Header>)

  /** `Move` is the next step of thread `t`; `report` is the completion of its send, if it is
      signalled. */
  datatype Action = Arrive(q: nat, buf: nat, header: Header) | Move(t: nat, report: seq<Wc>)

  predicate HoldsLock(pc: Pc) {
    pc.Indexing? || pc.Appending? || pc.Filed? || pc.Testing? || pc.Popping? || pc.Erasing?
    || pc.Leaving? || pc.LeavingEmpty? || pc.AssertionFailed?
  }

  ghost predicate ValidConfig(cfg: Config) {
    && |cfg.qpOf| == |cfg.groupOf|
    && (cfg.mode.signalling.Every? ==> cfg.mode.signalling.interval > 0)
    && (forall t | 0 <= t < |cfg.qpOf| :: cfg.qpOf[t] < cfg.qps)
    && (forall t | 0 <= t < |cfg.groupOf| :: cfg.groupOf[t] < cfg.groups)
  }

  ghost predicate Shaped(cfg: Config, s: State) {
    && ValidConfig(cfg)
    && |s.qps| == cfg.qps && |s.threads| == |cfg.qpOf| && |s.groups| == cfg.groups
    && forall g | 0 <= g < |s.groups| :: |s.groups[g].metaCQ| == cfg.priorities
  }

  /** The part of the state that one thread's step can change. */
  datatype Local = Local(qp: Qp, thread: Thread, group: Group)

  ghost predicate Reports(qp: Qp, mode: Mode, report: seq<Wc>) {
    match mode.signalling
    case Every(interval) =>
      interval > 0 && report == if Signalled(qp.rcnt, interval) then [SendWc(qp.sent + 1)] else []
    case AnyTime => report == [] || report == [SendWc(qp.sent + 1)]
  }

  ghost predicate LocalEnabled(l: Local, mode: Mode, report: seq<Wc>) {
    match l.thread.pc
    case ToFile(_, _) => l.group.holder == FREE
    case ToPop => l.group.holder == FREE
    case Sending(_) => Reports(l.qp, mode, report)
    case AssertionFailed => false
    case _ => true
  }

  ghost function Handle(l: Local, headers: seq<Header>): Local {
    if l.thread.batch == [] then l.(thread := l.thread.(pc := ToPop))
    else
      var wc, rest := l.thread.batch[0], l.thread.batch[1..];
      match wc
      case SendWc(_) => l.(thread := Thread(Handling, rest))
      case RecvWc(b, src) =>
        if b < |headers| then
          l.(thread := Thread(ToFile(Priority(headers[b]), D.RecvReq(b, src)), rest))
        else l
  }

  /** Appends to the list of a class; the request counts as filed from here on. */
  ghost function Append(l: Local, c: nat, x: D.RecvReq): Local
  {
    if c >= |l.group.metaCQ| then l
    else
      l.(thread := l.thread.(pc := Filed),
         group := l.group.(metaCQ := l.group.metaCQ[c := l.group.metaCQ[c] + [x]],
                           events := l.group.events + [D.Arrive(c, x)]))
  }

  /** `if (!skipList.empty())`, and the choice of a class. */
  ghost function Test(l: Local): Local {
    if l.group.skipList == {} then
      l.(thread := l.thread.(pc := LeavingEmpty),
         group := l.group.(events := l.group.events + [D.Iterate]))
    else l.(thread := l.thread.(pc := Popping(Least(l.group.skipList))))
  }

  ghost function Pop(l: Local, c: nat): Local {
    if c >= |l.group.metaCQ| || l.group.metaCQ[c] == [] then
      l.(thread := l.thread.(pc := AssertionFailed))
    else
      var queue := l.group.metaCQ[c];
      l.(thread := l.thread.(pc := Erasing(c, queue[0])),
         group := l.group.(metaCQ := l.group.metaCQ[c := queue[1..]],
                           events := l.group.events + [D.Iterate],
                           services := l.group.services + [D.Service(c, queue[0])]))
  }

  ghost function Erase(l: Local, c: nat, x: D.RecvReq): Local {
    l.(thread := l.thread.(pc := Leaving(c, x)),
       group := if c < |l.group.metaCQ| && l.group.metaCQ[c] == []
                then l.group.(skipList := l.group.skipList - {c}) else l.group)
  }

  /** The oldest `k` completions are taken, and the sends they report reclaimed. */
  ghost function Polled(qp: Qp, k: nat): Qp
    requires k <= |qp.cq|
  {
    qp.(cq := qp.cq[k..], reclaimed := LastSend(qp.cq[..k], qp.reclaimed))
  }

  /** A response is posted; its completion, if it is signalled, is there at once. */
  ghost function Answered(qp: Qp, report: seq<Wc>): Qp {
    qp.(cq := qp.cq + report, sent := qp.sent + 1)
  }

  ghost function Repost(qp: Qp, b: nat, rxDepth: nat): Qp {
    if |qp.posted| < rxDepth then qp.(posted := qp.posted + multiset{b}, rcnt := qp.rcnt + 1)
    else qp.(lost := qp.lost + multiset{b}, rcnt := qp.rcnt + 1)
  }

  ghost function Locked(l: Local, t: nat, pc: Pc): Local {
    l.(thread := l.thread.(pc := pc), group := l.group.(holder := t))
  }

  ghost function Unlocked(l: Local, pc: Pc): Local {
    l.(thread := l.thread.(pc := pc), group := l.group.(holder := FREE))
  }

  ghost function LocalMove(l: Local, t: nat, headers: seq<Header>, mode: Mode, report: seq<Wc>): Local
    requires LocalEnabled(l, mode, report)
  {
    match l.thread.pc
    case Polling =>
      var k := if |l.qp.cq| < mode.pollLimit then |l.qp.cq| else mode.pollLimit;
      if mode.again && k == 0 then l
      else l.(qp := Polled(l.qp, k), thread := Thread(Handling, l.qp.cq[..k]))
    case Handling => Handle(l, headers)
    case ToFile(c, x) => Locked(l, t, Indexing(c, x))
    case Indexing(c, x) =>
      l.(thread := l.thread.(pc := Appending(c, x)),
         group := l.group.(skipList := l.group.skipList + {c}))
    case Appending(c, x) => Append(l, c, x)
    case Filed => Unlocked(l, Handling)
    case ToPop => Locked(l, t, Testing)
    case Testing => Test(l)
    case Popping(c) => Pop(l, c)
    case Erasing(c, x) => Erase(l, c, x)
    case Leaving(c, x) => Unlocked(l, Serving(c, x))
    case LeavingEmpty => Unlocked(l, Polling)
    case Serving(c, x) =>
      l.(qp := Repost(l.qp, x.bufID, mode.rxDepth), thread := l.thread.(pc := Sending(x)))
    case Sending(_) =>
      l.(qp := Answered(l.qp, report), thread := l.thread.(pc := Polling))
  }

  ghost function LocalOf(cfg: Config, s: State, t: nat): Local
    requires Shaped(cfg, s) && t < |s.threads|
  {
    Local(s.qps[cfg.qpOf[t]], s.threads[t], s.groups[cfg.groupOf[t]])
  }

  ghost predicate Enabled(cfg: Config, s: State, a: Action)
    requires Shaped(cfg, s)
  {
    match a
    case Arrive(q, b, h) =>
      q < |s.qps| && b in s.qps[q].posted && b < |s.headers| && Priority(h) < cfg.priorities
    case Move(t, report) => t < |s.threads| && LocalEnabled(LocalOf(cfg, s, t), cfg.mode, report)
  }

  ghost function Received(qp: Qp, b: nat, src: nat): Qp {
    qp.(posted := qp.posted - multiset{b}, cq := qp.cq + [RecvWc(b, src)])
  }

  ghost function Apply(cfg: Config, s: State, a: Action): (s': State)
    requires Shaped(cfg, s) && Enabled(cfg, s, a)
    ensures Shaped(cfg, s')
  {
    match a
    case Arrive(q, b, h) =>
      s.(qps := s.qps[q := Received(s.qps[q], b, h.src)], headers := s.headers[b := h])
    case Move(t, report) =>
      var l := LocalMove(LocalOf(cfg, s, t), t, s.headers, cfg.mode, report);
      s.(qps := s.qps[cfg.qpOf[t] := l.qp], threads := s.threads[t := l.thread],
         groups := s.groups[cfg.groupOf[t] := l.group])
  }

  /** `s` with what thread `t` sees replaced. */
  ghost function Put(cfg: Config, s: State, t: nat, l: Local): State
    requires Shaped(cfg, s) && t < |s.threads|
  {
    s.(qps := s.qps[cfg.qpOf[t] := l.qp], threads := s.threads[t := l.thread],
       groups := s.groups[cfg.groupOf[t] := l.group])
  }

  ghost predicate Legal(cfg: Config, s: State, steps: seq<Action>)
    requires Shaped(cfg, s)
    decreases |steps|
  {
    steps == [] || (Enabled(cfg, s, steps[0]) && Legal(cfg, Apply(cfg, s, steps[0]), steps[1..]))
  }

  ghost function After(cfg: Config, s: State, steps: seq<Action>): (s': State)
    requires Shaped(cfg, s) && Legal(cfg, s, steps)
    ensures Shaped(cfg, s')
    decreases |steps|
  {
    if steps == [] then s else After(cfg, Apply(cfg, s, steps[0]), steps[1..])
  }

  ghost function Start(cfg: Config, blocks: seq<set<nat>>, headers: seq<Header>): State {
    State(seq(|blocks|, q requires 0 <= q < |blocks| => Qp(multiset(blocks[q]), [], 0, multiset{}, 0, 0)),
          seq(|cfg.qpOf|, _ => Thread(Polling, [])),
          seq(cfg.groups, _ => Group(seq(cfg.priorities, _ => []), {}, FREE, [], [])),
          headers)
  }

  ghost predicate Reachable(cfg: Config, blocks: seq<set<nat>>, headers: seq<Header>, s: State)
    requires ValidConfig(cfg) && |blocks| == cfg.qps
  {
    exists steps :: Legal(cfg, Start(cfg, blocks, headers), steps)
                    && After(cfg, Start(cfg, blocks, headers), steps) == s
  }
}
