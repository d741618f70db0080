/** Closed-loop clients and echo servers: a client posts `window` receives, sends as many
    requests, and sends another for every response, in rotation or to any queue pair it likes.
    Both sides repost a receive before they send. The network delivers in any order; a
    message that finds no posted receive is lost. */
module ClosedLoop {
  import Bags
  import RoundRobinTargets

  /** `unsent` requests of the initial burst are still to be sent. `cq` responses wait to be
      handled. A handled response leaves its receive reposted and a request to be sent, unless
      the client has sent enough (`stopped`). `sent` and `received` are counters. */
  datatype Client = Client(window: nat, unsent: nat, posted: nat, cq: nat, ready: nat, stopped: nat,
                           sent: nat, received: nat)

  datatype Hand = Empty | Received(src: nat) | Reposted(src: nat)

  /** `requests` are on their way to this queue pair; each message is known by its client. */
  datatype Server = Server(buffers: nat, posted: nat, requests: multiset<nat>, cq: seq<nat>, hand: Hand)

  datatype State = State(clients: seq<Client>, servers: seq<Server>, responses: multiset<nat>,
                         lost: multiset<nat>)

  datatype Action =
    | SendFirst(i: nat, q: nat)
    | DeliverRequest(i: nat, q: nat)
    | Take(q: nat)
    | Repost(q: nat)
    | Answer(q: nat)
    | DeliverResponse(i: nat)
    | RepostReceive(i: nat)
    | SendNext(i: nat, q: nat)
    | Stop(i: nat)

  predicate Enabled(s: State, a: Action) {
    match a
    case SendFirst(i, q) => i < |s.clients| && q < |s.servers| && s.clients[i].unsent > 0
    case DeliverRequest(i, q) => q < |s.servers| && i in s.servers[q].requests
    case Take(q) => q < |s.servers| && s.servers[q].hand.Empty? && s.servers[q].cq != []
    case Repost(q) => q < |s.servers| && s.servers[q].hand.Received?
    case Answer(q) => q < |s.servers| && s.servers[q].hand.Reposted?
    case DeliverResponse(i) => i < |s.clients| && i in s.responses
    case RepostReceive(i) =>
      i < |s.clients| && s.clients[i].unsent == 0 && s.clients[i].ready == 0 && s.clients[i].cq > 0
    case SendNext(i, q) => i < |s.clients| && q < |s.servers| && s.clients[i].ready > 0
    case Stop(i) => i < |s.clients| && s.clients[i].ready > 0
  }

  function Requested(s: State, i: nat, q: nat): State
    requires i < |s.clients| && q < |s.servers|
  {
    var c, x := s.clients[i], s.servers[q];
    s.(clients := s.clients[i := c.(sent := c.sent + 1)],
       servers := s.servers[q := x.(requests := x.requests + multiset{i})])
  }

  function Apply(s: State, a: Action): State
    requires Enabled(s, a)
  {
    match a
    case SendFirst(i, q) =>
      var c := s.clients[i];
      Requested(s.(clients := s.clients[i := c.(unsent := c.unsent - 1)]), i, q)
    case DeliverRequest(i, q) =>
      var x := s.servers[q];
      var y := x.(requests := x.requests - multiset{i});
      if x.posted > 0 then
        s.(servers := s.servers[q := y.(posted := x.posted - 1, cq := x.cq + [i])])
      else
        s.(servers := s.servers[q := y], lost := s.lost + multiset{i})
    case Take(q) =>
      var x := s.servers[q];
      s.(servers := s.servers[q := x.(cq := x.cq[1..], hand := Received(x.cq[0]))])
    case Repost(q) =>
      var x := s.servers[q];
      s.(servers := s.servers[q := x.(posted := x.posted + 1, hand := Reposted(x.hand.src))])
    case Answer(q) =>
      var x := s.servers[q];
      s.(servers := s.servers[q := x.(hand := Empty)], responses := s.responses + multiset{x.hand.src})
    case DeliverResponse(i) =>
      var c := s.clients[i];
      var t := s.(responses := s.responses - multiset{i});
      if c.posted > 0 then
        t.(clients := s.clients[i := c.(posted := c.posted - 1, cq := c.cq + 1)])
      else
        t.(lost := s.lost + multiset{i})
    case RepostReceive(i) =>
      var c := s.clients[i];
      s.(clients := s.clients[i := c.(cq := c.cq - 1, received := c.received + 1, posted := c.posted + 1,
                                      ready := c.ready + 1)])
    case SendNext(i, q) =>
      var c := s.clients[i];
      Requested(s.(clients := s.clients[i := c.(ready := c.ready - 1)]), i, q)
    case Stop(i) =>
      var c := s.clients[i];
      s.(clients := s.clients[i := c.(ready := c.ready - 1, stopped := c.stopped + 1)])
  }

  /** How a client picks the queue pair of a request: at random, or going round the server
      threads from a start of its own. */
  datatype Routing = Anywhere | Rotating(threads: nat, starts: seq<nat>)

  /** Client `i` starts at a server thread, and every server thread has a queue pair. */
  predicate ValidRouting(r: Routing, clients: nat, servers: nat) {
    r.Rotating? ==>
      && 0 < r.threads <= servers && |r.starts| == clients
      && forall i | 0 <= i < clients :: r.starts[i] < r.threads
  }

  /** A rotating client's next request follows from how many it has sent. */
  predicate Routed(r: Routing, s: State, a: Action) {
    r.Rotating? && (a.SendFirst? || a.SendNext?) ==>
      && r.threads > 0 && a.i < |r.starts| && a.i < |s.clients|
      && a.q == RoundRobinTargets.Offset(r.threads, r.starts[a.i], s.clients[a.i].sent)
  }

  predicate Legal(r: Routing, s: State, steps: seq<Action>)
    decreases |steps|
  {
    steps == [] ||
    (Enabled(s, steps[0]) && Routed(r, s, steps[0]) && Legal(r, Apply(s, steps[0]), steps[1..]))
  }

  function After(r: Routing, s: State, steps: seq<Action>): State
    requires Legal(r, s, steps)
    decreases |steps|
  {
    if steps == [] then s else After(r, Apply(s, steps[0]), steps[1..])
  }

  function Start(windows: seq<nat>, buffers: seq<nat>): State {
    State(seq(|windows|, i requires 0 <= i < |windows| => Client(windows[i], windows[i], windows[i], 0, 0, 0, 0, 0)),
          seq(|buffers|, q requires 0 <= q < |buffers| => Server(buffers[q], buffers[q], multiset{}, [], Empty)),
          multiset{}, multiset{})
  }

  ghost predicate Reachable(r: Routing, windows: seq<nat>, buffers: seq<nat>, s: State) {
    exists steps :: Legal(r, Start(windows, buffers), steps) && After(r, Start(windows, buffers), steps) == s
  }

  function Sum(ns: seq<nat>): nat {
    if ns == [] then 0 else ns[0] + Sum(ns[1..])
  }

  // ---- credits ----

  function HandBag(h: Hand): multiset<nat> {
    if h.Empty? then multiset{} else multiset{h.src}
  }

  /** The messages at or on the way to a queue pair. */
  function ServerBag(x: Server): multiset<nat> {
    x.requests + multiset(x.cq) + HandBag(x.hand)
  }

  /** All messages under way or lost; each is a credit of its client. */
  ghost function Outstanding(s: State): multiset<nat> {
    Bags.Sum(s.servers, ServerBag) + s.responses + s.lost
  }

  ghost predicate ClientOk(c: Client, outstanding: nat) {
    && c.posted + c.cq == c.window
    && c.unsent + c.cq + c.ready + c.stopped + outstanding == c.window
    && c.sent == c.received + c.cq + outstanding
  }

  function Taken(h: Hand): nat {
    if h.Received? then 1 else 0
  }

  predicate ServerOk(x: Server) {
    x.posted + |x.cq| + Taken(x.hand) == x.buffers
  }

  ghost predicate ClientsOk(windows: seq<nat>, s: State) {
    && |s.clients| == |windows|
    && forall i | 0 <= i < |windows| ::
         s.clients[i].window == windows[i] && ClientOk(s.clients[i], Outstanding(s)[i])
  }

  ghost predicate ServersOk(buffers: seq<nat>, s: State) {
    && |s.servers| == |buffers|
    && forall q | 0 <= q < |buffers| :: s.servers[q].buffers == buffers[q] && ServerOk(s.servers[q])
  }

  ghost predicate SendersKnown(n: nat, s: State) {
    forall i | i in Outstanding(s) :: i < n
  }

  ghost predicate Inv(windows: seq<nat>, buffers: seq<nat>, s: State) {
    ClientsOk(windows, s) && ServersOk(buffers, s) && SendersKnown(|windows|, s)
  }

  /** If the whole `a` changes where the part `x` does, and the part together with `r` gains
      `e`, so does the whole together with `r`. */
  lemma PartAndWhole(a: multiset<nat>, a': multiset<nat>, x: multiset<nat>, x': multiset<nat>,
                     r: multiset<nat>, r': multiset<nat>, e: multiset<nat>)
    requires a' + x == a + x' && x' + r' == x + r + e
    ensures a' + r' == a + r + e
  {
    forall k ensures (a' + r')[k] == (a + r + e)[k] {
      assert (a' + x)[k] == (a + x')[k] && (x' + r')[k] == (x + r + e)[k];
    }
  }

  /** A step of one server and the network that brings in `e`. */
  lemma ServerStep(s: State, q: nat, t: State, e: multiset<nat>)
    requires q < |s.servers| == |t.servers| && t.servers == s.servers[q := t.servers[q]]
    requires ServerBag(t.servers[q]) + (t.responses + t.lost)
          == ServerBag(s.servers[q]) + (s.responses + s.lost) + e
    ensures Outstanding(t) == Outstanding(s) + e
  {
    hide Bags.Sum, ServerBag;
    Bags.SumReplace(s.servers, ServerBag, q, t.servers[q]);
    PartAndWhole(Bags.Sum(s.servers, ServerBag), Bags.Sum(t.servers, ServerBag),
                 ServerBag(s.servers[q]), ServerBag(t.servers[q]),
                 s.responses + s.lost, t.responses + t.lost, e);
    assert Outstanding(s) == Bags.Sum(s.servers, ServerBag) + (s.responses + s.lost);
    assert Outstanding(t) == Bags.Sum(t.servers, ServerBag) + (t.responses + t.lost);
  }

  lemma Requesting(s: State, i: nat, q: nat)
    requires i < |s.clients| && q < |s.servers|
    ensures Outstanding(Requested(s, i, q)) == Outstanding(s) + multiset{i}
  {
    var t := Requested(s, i, q);
    assert t.servers[q].requests == s.servers[q].requests + multiset{i};
    ServerStep(s, q, t, multiset{i});
  }

  lemma DeliveringRequest(s: State, i: nat, q: nat)
    requires Enabled(s, DeliverRequest(i, q))
    ensures Outstanding(Apply(s, DeliverRequest(i, q))) == Outstanding(s)
  {
    var t := Apply(s, DeliverRequest(i, q));
    var x, y := s.servers[q], t.servers[q];
    Bags.PutBack(x.requests, i);
    assert y.requests + multiset{i} == x.requests;
    assert x.posted > 0 ==> multiset(y.cq) == multiset(x.cq) + multiset{i};
    ServerStep(s, q, t, multiset{});
  }

  lemma Serving(s: State, a: Action)
    requires Enabled(s, a) && (a.Take? || a.Repost? || a.Answer?)
    ensures Outstanding(Apply(s, a)) == Outstanding(s)
  {
    var t := Apply(s, a);
    var x, y := s.servers[a.q], t.servers[a.q];
    if a.Take? {
      assert x.cq == [x.cq[0]] + x.cq[1..];
      assert multiset(x.cq) == multiset{x.cq[0]} + multiset(y.cq);
    }
    ServerStep(s, a.q, t, multiset{});
  }

  lemma DeliveringResponse(s: State, i: nat)
    requires Enabled(s, DeliverResponse(i))
    ensures var t := Apply(s, DeliverResponse(i));
            if s.clients[i].posted > 0 then Outstanding(t) + multiset{i} == Outstanding(s)
            else Outstanding(t) == Outstanding(s)
  {
    hide Bags.Sum;
    Bags.PutBack(s.responses, i);
  }

  /** Client `k`, with `out` messages under way, after a step that makes them `out'`. */
  lemma ClientStep(s: State, a: Action, k: nat, out: nat)
    requires Enabled(s, a) && k < |s.clients| && ClientOk(s.clients[k], out)
    requires a.DeliverResponse? && a.i == k && s.clients[k].posted > 0 ==> out > 0
    ensures |Apply(s, a).clients| == |s.clients| && Apply(s, a).clients[k].window == s.clients[k].window
    ensures var out' := if (a.SendFirst? || a.SendNext?) && a.i == k then out + 1
                        else if a.DeliverResponse? && a.i == k && s.clients[k].posted > 0 then out - 1
                        else out;
            ClientOk(Apply(s, a).clients[k], out')
  {
  }

  lemma ServersKept(buffers: seq<nat>, s: State, a: Action)
    requires Enabled(s, a) && ServersOk(buffers, s)
    ensures ServersOk(buffers, Apply(s, a))
  {
  }

  ghost function Entering(s: State, a: Action): multiset<nat>
    requires Enabled(s, a)
  {
    if a.SendFirst? || a.SendNext? then multiset{a.i} else multiset{}
  }

  ghost function Leaving(s: State, a: Action): multiset<nat>
    requires Enabled(s, a)
  {
    if a.DeliverResponse? && s.clients[a.i].posted > 0 then multiset{a.i} else multiset{}
  }

  lemma Messages(s: State, a: Action)
    requires Enabled(s, a)
    ensures Outstanding(Apply(s, a)) + Leaving(s, a) == Outstanding(s) + Entering(s, a)
  {
    hide Outstanding;
    match a {
      case SendFirst(i, q) => SendingFirst(s, i, q);
      case SendNext(i, q) => SendingNext(s, i, q);
      case DeliverRequest(i, q) => DeliveringRequest(s, i, q);
      case DeliverResponse(i) => DeliveringResponse(s, i);
      case RepostReceive(i) => NoMessage(s, a);
      case Stop(i) => NoMessage(s, a);
      case _ => Serving(s, a);
    }
  }

  lemma NoMessage(s: State, a: Action)
    requires Enabled(s, a) && (a.RepostReceive? || a.Stop?)
    ensures Outstanding(Apply(s, a)) == Outstanding(s)
  {
  }

  lemma SendingFirst(s: State, i: nat, q: nat)
    requires Enabled(s, SendFirst(i, q))
    ensures Outstanding(Apply(s, SendFirst(i, q))) == Outstanding(s) + multiset{i}
  {
    var t := s.(clients := s.clients[i := s.clients[i].(unsent := s.clients[i].unsent - 1)]);
    Requesting(t, i, q);
    assert Outstanding(t) == Outstanding(s);
    hide Outstanding;
  }

  lemma SendingNext(s: State, i: nat, q: nat)
    requires Enabled(s, SendNext(i, q))
    ensures Outstanding(Apply(s, SendNext(i, q))) == Outstanding(s) + multiset{i}
  {
    var t := s.(clients := s.clients[i := s.clients[i].(ready := s.clients[i].ready - 1)]);
    Requesting(t, i, q);
    assert Outstanding(t) == Outstanding(s);
    hide Outstanding;
  }

  /** A client's account after a step, the messages having changed as they do. */
  lemma ClientKept(s: State, a: Action, t: State, k: nat)
    requires Enabled(s, a) && t == Apply(s, a) && k < |s.clients|
    requires ClientOk(s.clients[k], Outstanding(s)[k])
    ensures |t.clients| == |s.clients| && t.clients[k].window == s.clients[k].window
    ensures ClientOk(t.clients[k], Outstanding(t)[k])
  {
    hide Outstanding, ClientOk, Apply, Enabled;
    Messages(s, a);
    SameClients(s, a);
    CountOf(Outstanding(t), Leaving(s, a), Outstanding(s), Entering(s, a), k);
    ClientStep(s, a, k, Outstanding(s)[k]);
  }

  lemma ClientsKept(windows: seq<nat>, s: State, a: Action)
    requires Enabled(s, a) && ClientsOk(windows, s)
    ensures ClientsOk(windows, Apply(s, a))
  {
    var t := Apply(s, a);
    SameClients(s, a);
    hide Outstanding, ClientOk, Apply, Enabled;
    forall k | 0 <= k < |windows|
      ensures t.clients[k].window == windows[k] && ClientOk(t.clients[k], Outstanding(t)[k]) {
      ClientKept(s, a, t, k);
    }
  }

  lemma SendersKept(s: State, a: Action)
    requires Enabled(s, a) && SendersKnown(|s.clients|, s)
    ensures SendersKnown(|s.clients|, Apply(s, a))
  {
    hide Outstanding, Apply;
    var t := Apply(s, a);
    Messages(s, a);
    forall k | k in Outstanding(t) ensures k < |s.clients| {
      CountOf(Outstanding(t), Leaving(s, a), Outstanding(s), Entering(s, a), k);
    }
  }

  lemma InvStep(windows: seq<nat>, buffers: seq<nat>, s: State, a: Action)
    requires Inv(windows, buffers, s) && Enabled(s, a)
    ensures Inv(windows, buffers, Apply(s, a))
  {
    assert |s.clients| == |windows|;
    hide ClientsOk, ServersOk, SendersKnown, Apply, Enabled;
    ClientsKept(windows, s, a);
    ServersKept(buffers, s, a);
    SendersKept(s, a);
  }

  lemma SameClients(s: State, a: Action)
    requires Enabled(s, a)
    ensures |Apply(s, a).clients| == |s.clients|
  {
  }

  lemma CountOf(a: multiset<nat>, b: multiset<nat>, c: multiset<nat>, d: multiset<nat>, k: nat)
    requires a + b == c + d
    ensures a[k] + b[k] == c[k] + d[k]
  {
    assert (a + b)[k] == (c + d)[k];
  }

  lemma StartInv(windows: seq<nat>, buffers: seq<nat>)
    ensures Inv(windows, buffers, Start(windows, buffers))
  {
    var s := Start(windows, buffers);
    Bags.SumEmpty(s.servers, ServerBag);
    assert Outstanding(s) == multiset{};
    hide Outstanding;
  }

  lemma {:induction false} InvHolds(r: Routing, windows: seq<nat>, buffers: seq<nat>, s: State,
                                    steps: seq<Action>)
    requires Inv(windows, buffers, s) && Legal(r, s, steps)
    ensures Inv(windows, buffers, After(r, s, steps))
    decreases |steps|
  {
    if steps != [] {
      InvStep(windows, buffers, s, steps[0]);
      hide Inv, Enabled, Apply, Routed;
      InvHolds(r, windows, buffers, Apply(s, steps[0]), steps[1..]);
    }
  }

  lemma ReachableInv(r: Routing, windows: seq<nat>, buffers: seq<nat>, s: State)
    requires Reachable(r, windows, buffers, s)
    ensures Inv(windows, buffers, s)
  {
    hide Inv;
    var start := Start(windows, buffers);
    StartInv(windows, buffers);
    var steps :| Legal(r, start, steps) && After(r, start, steps) == s;
    InvHolds(r, windows, buffers, start, steps);
  }
}
