/** What the credits of the closed loop are good for: nothing is lost, everything balances, and
    the loop never stalls. */
module ClosedLoopCredit {
  import Bags
  import opened ClosedLoop
  import opened RoundRobinTargets

  /** A bag with at most `limits[i]` copies of each `i` and nothing else. */
  lemma {:induction false} CountAll(bag: multiset<nat>, limits: seq<nat>)
    requires forall i | i in bag :: i < |limits| && bag[i] <= limits[i]
    ensures |bag| <= Sum(limits)
    decreases |limits|
  {
    if limits == [] {
      assert bag == multiset{};
    } else {
      var n := |limits| - 1;
      var rest := bag[n := 0];
      CountAll(rest, limits[..n]);
      SumLast(limits[..n], limits[n]);
      assert limits == limits[..n] + [limits[n]];
    }
  }

  lemma {:induction false} SumLast(ns: seq<nat>, n: nat)
    ensures Sum(ns + [n]) == Sum(ns) + n
  {
    if ns != [] {
      assert (ns + [n])[1..] == ns[1..] + [n];
      SumLast(ns[1..], n);
    } else {
      assert [n][1..] == [];
    }
  }

  /** How many requests of client `i` can be at or on the way to queue pair `q` at once: a
      window's worth if the client keeps coming back to it, one if it only starts there. */
  function Share(r: Routing, windows: seq<nat>, q: nat, i: nat): (n: nat)
    requires i < |windows| && (r.Rotating? ==> r.threads > 0 && i < |r.starts|)
    ensures n <= windows[i]
  {
    match r
    case Anywhere => windows[i]
    case Rotating(threads, starts) =>
      if q < threads && Returns(threads, starts[i], q) then windows[i]
      else if q == starts[i] && windows[i] > 0 then 1
      else 0
  }

  function Shares(r: Routing, windows: seq<nat>, q: nat): seq<nat>
    requires r.Rotating? ==> r.threads > 0 && |r.starts| == |windows|
  {
    seq(|windows|, i requires 0 <= i < |windows| => Share(r, windows, q, i))
  }

  /** Each queue pair has a buffer for every request that can be there at once. */
  predicate Fits(r: Routing, windows: seq<nat>, buffers: seq<nat>)
    requires ValidRouting(r, |windows|, |buffers|)
  {
    forall q | 0 <= q < |buffers| :: Sum(Shares(r, windows, q)) <= buffers[q]
  }

  lemma {:induction false} SumMonotone(a: seq<nat>, b: seq<nat>)
    requires |a| == |b| && forall i | 0 <= i < |a| :: a[i] <= b[i]
    ensures Sum(a) <= Sum(b)
  {
    if a != [] {
      SumMonotone(a[1..], b[1..]);
    }
  }

  /** Whatever the routing, a buffer for each credit at every queue pair is enough. */
  lemma WindowsFit(r: Routing, windows: seq<nat>, buffers: seq<nat>)
    requires ValidRouting(r, |windows|, |buffers|)
    requires forall q | 0 <= q < |buffers| :: Sum(windows) <= buffers[q]
    ensures Fits(r, windows, buffers)
  {
    hide Sum, Share;
    forall q | 0 <= q < |buffers| ensures Sum(Shares(r, windows, q)) <= buffers[q] {
      SumMonotone(Shares(r, windows, q), windows);
    }
  }

  /** Where the requests of a rotating client can be: at a queue pair it keeps coming back to,
      or, one of them, where it started. */
  ghost predicate Placed(r: Routing, s: State) {
    r.Rotating? ==>
      forall q, i | 0 <= q < |s.servers| && i in ServerBag(s.servers[q]) :: PlacedAt(r, s, q, i)
  }

  ghost predicate PlacedAt(r: Routing, s: State, q: nat, i: nat)
    requires r.Rotating? && q < |s.servers|
  {
    && r.threads > 0 && i < |r.starts| && i < |s.clients| && s.clients[i].sent > 0
    && ((q < r.threads && Returns(r.threads, r.starts[i], q))
        || (q == r.starts[i] && ServerBag(s.servers[q])[i] == 1))
  }

  lemma PlacedStep(r: Routing, s: State, a: Action)
    requires Enabled(s, a) && Routed(r, s, a) && Placed(r, s)
    requires ValidRouting(r, |s.clients|, |s.servers|)
    ensures Placed(r, Apply(s, a))
  {
    if r.Rotating? {
      var t := Apply(s, a);
      forall q, i | 0 <= q < |t.servers| && i in ServerBag(t.servers[q]) ensures PlacedAt(r, t, q, i) {
        PlacedAfter(r, s, a, q, i);
      }
    }
  }

  lemma PlacedAfter(r: Routing, s: State, a: Action, q: nat, i: nat)
    requires Enabled(s, a) && Routed(r, s, a) && Placed(r, s) && r.Rotating?
    requires ValidRouting(r, |s.clients|, |s.servers|)
    requires q < |Apply(s, a).servers| && i in ServerBag(Apply(s, a).servers[q])
    ensures PlacedAt(r, Apply(s, a), q, i)
  {
    var t := Apply(s, a);
    SameServers(s, a);
    BagStep(s, a, q, i);
    hide ServerBag, Apply;
    var sends := (a.SendFirst? || a.SendNext?) && a.i == i && a.q == q;
    if sends {
      SendPlaced(r, s, i, q);
      SentGrows(s, a, i);
    } else {
      assert PlacedAt(r, s, q, i);
      SentGrows(s, a, i);
    }
  }

  lemma SameServers(s: State, a: Action)
    requires Enabled(s, a)
    ensures |Apply(s, a).servers| == |s.servers|
  {
  }

  /** What a step does to a server. */
  lemma ServerChange(s: State, a: Action, q: nat)
    requires Enabled(s, a) && q < |s.servers|
    ensures |Apply(s, a).servers| == |s.servers|
    ensures var x, y := s.servers[q], Apply(s, a).servers[q];
            || y == x
            || ((a.SendFirst? || a.SendNext?) && a.q == q && y == x.(requests := x.requests + multiset{a.i}))
            || (a.DeliverRequest? && Delivers(x, y, a.i))
            || Serves(x, y)
  {
  }

  ghost predicate Delivers(x: Server, y: Server, j: nat) {
    && j in x.requests && y.requests == x.requests - multiset{j} && y.hand == x.hand
    && (y.cq == x.cq || y.cq == x.cq + [j])
  }

  ghost predicate Serves(x: Server, y: Server) {
    && y.requests == x.requests
    && ((x.hand.Empty? && x.cq != [] && y.cq == x.cq[1..] && y.hand == Received(x.cq[0]))
        || (x.hand.Received? && y.cq == x.cq && y.hand == Reposted(x.hand.src))
        || (y.cq == x.cq && y.hand.Empty?))
  }

  /** What a step does to the requests of client `i` at queue pair `q`. */
  lemma BagStep(s: State, a: Action, q: nat, i: nat)
    requires Enabled(s, a) && q < |s.servers|
    ensures |Apply(s, a).servers| == |s.servers|
    ensures var t := Apply(s, a);
            ServerBag(t.servers[q])[i]
            <= ServerBag(s.servers[q])[i] + if (a.SendFirst? || a.SendNext?) && a.i == i && a.q == q then 1 else 0
  {
    ServerChange(s, a, q);
    var x, y := s.servers[q], Apply(s, a).servers[q];
    hide ServerBag, Apply, Enabled;
    if a.SendFirst? || a.SendNext? {
      SendGrows(x, a.i);
    } else if a.DeliverRequest? {
      DeliverShrinks(x, y, a.i);
    }
    ServeShrinks(x, y);
  }

  lemma SendGrows(x: Server, j: nat)
    ensures var y := x.(requests := x.requests + multiset{j});
            forall i :: ServerBag(y)[i] == ServerBag(x)[i] + if i == j then 1 else 0
  {
  }

  lemma ServeShrinks(x: Server, y: Server)
    ensures Serves(x, y) ==> forall i :: ServerBag(y)[i] <= ServerBag(x)[i]
  {
    if x.hand.Empty? && x.cq != [] {
      assert x.cq == [x.cq[0]] + x.cq[1..];
    }
  }

  lemma DeliverShrinks(x: Server, y: Server, j: nat)
    ensures Delivers(x, y, j) ==> forall i :: ServerBag(y)[i] <= ServerBag(x)[i]
  {
  }

  lemma SentGrows(s: State, a: Action, i: nat)
    requires Enabled(s, a) && i < |s.clients|
    ensures |Apply(s, a).clients| == |s.clients|
    ensures Apply(s, a).clients[i].sent
         == s.clients[i].sent + if (a.SendFirst? || a.SendNext?) && a.i == i then 1 else 0
  {
  }

  lemma SentBefore(r: Routing, s: State, q: nat, i: nat)
    requires r.Rotating? && Placed(r, s) && q < |s.servers| && i < |s.clients|
    ensures i in ServerBag(s.servers[q]) ==> s.clients[i].sent > 0 && PlacedAt(r, s, q, i)
  {
  }

  /** A request is sent where the rotation stands. */
  lemma SendPlaced(r: Routing, s: State, i: nat, q: nat)
    requires r.Rotating? && ValidRouting(r, |s.clients|, |s.servers|) && Placed(r, s)
    requires i < |s.clients| && q < |s.servers|
    requires q == Offset(r.threads, r.starts[i], s.clients[i].sent)
    ensures q < r.threads
    ensures Returns(r.threads, r.starts[i], q) || (q == r.starts[i] && ServerBag(s.servers[q])[i] == 0)
  {
    var n := s.clients[i].sent;
    if n > 0 {
      OffsetInBlock(r.threads, r.starts[i], n);
    } else {
      SentBefore(r, s, q, i);
    }
  }

  /** No more requests of a client at a queue pair than its share. */
  lemma WithinShare(r: Routing, windows: seq<nat>, buffers: seq<nat>, s: State, q: nat, i: nat)
    requires ValidRouting(r, |windows|, |buffers|) && Inv(windows, buffers, s) && Placed(r, s)
    requires q < |buffers| && i in ServerBag(s.servers[q])
    ensures i < |windows| && ServerBag(s.servers[q])[i] <= Share(r, windows, q, i)
  {
    Bags.SumHolds(s.servers, ServerBag, q);
    assert i in Outstanding(s);
    assert ClientOk(s.clients[i], Outstanding(s)[i]);
    hide Bags.Sum;
    if r.Rotating? {
      assert PlacedAt(r, s, q, i);
    }
  }

  /** Requests on their way to a queue pair find a receive there. */
  lemma ServerHasRoom(r: Routing, windows: seq<nat>, buffers: seq<nat>, s: State, q: nat)
    requires ValidRouting(r, |windows|, |buffers|) && Inv(windows, buffers, s) && Placed(r, s)
    requires Fits(r, windows, buffers) && q < |buffers|
    ensures |s.servers[q].requests| <= s.servers[q].posted
  {
    var x := s.servers[q];
    assert x.buffers == buffers[q] && ServerOk(x);
    assert |ServerBag(x)| == |x.requests| + |x.cq| + |HandBag(x.hand)|;
    assert Sum(Shares(r, windows, q)) <= buffers[q];
    hide Inv, Placed, Fits, ServerBag, Sum, Share;
    forall i | i in ServerBag(x)
      ensures i < |windows| && ServerBag(x)[i] <= Shares(r, windows, q)[i] {
      WithinShare(r, windows, buffers, s, q, i);
    }
    CountAll(ServerBag(x), Shares(r, windows, q));
  }

  /** Responses on their way to a client find a receive there. */
  lemma ClientHasRoom(windows: seq<nat>, buffers: seq<nat>, s: State, i: nat)
    requires Inv(windows, buffers, s) && i < |windows|
    ensures s.responses[i] + s.lost[i] <= s.clients[i].posted
  {
    assert ClientOk(s.clients[i], Outstanding(s)[i]);
  }

  lemma NothingLostStep(r: Routing, windows: seq<nat>, buffers: seq<nat>, s: State, a: Action)
    requires ValidRouting(r, |windows|, |buffers|) && Inv(windows, buffers, s) && Placed(r, s)
    requires Fits(r, windows, buffers) && Enabled(s, a) && s.lost == multiset{}
    ensures Apply(s, a).lost == multiset{}
  {
    hide Inv, Fits, Placed;
    if a.DeliverRequest? {
      InRange(windows, buffers, s);
      ServerHasRoom(r, windows, buffers, s, a.q);
      assert |s.servers[a.q].requests| > 0;
    } else if a.DeliverResponse? {
      InRange(windows, buffers, s);
      ClientHasRoom(windows, buffers, s, a.i);
    }
  }

  lemma InRange(windows: seq<nat>, buffers: seq<nat>, s: State)
    requires Inv(windows, buffers, s)
    ensures |s.clients| == |windows| && |s.servers| == |buffers|
  {
  }

  lemma {:induction false} PlacedHolds(r: Routing, windows: seq<nat>, buffers: seq<nat>, s: State,
                                       steps: seq<Action>)
    requires ValidRouting(r, |windows|, |buffers|) && Inv(windows, buffers, s) && Placed(r, s)
    requires Legal(r, s, steps)
    ensures Placed(r, After(r, s, steps))
    ensures Fits(r, windows, buffers) && s.lost == multiset{} ==> After(r, s, steps).lost == multiset{}
    decreases |steps|
  {
    if steps != [] {
      InRange(windows, buffers, s);
      InvStep(windows, buffers, s, steps[0]);
      PlacedStep(r, s, steps[0]);
      if Fits(r, windows, buffers) && s.lost == multiset{} {
        NothingLostStep(r, windows, buffers, s, steps[0]);
      }
      hide Inv, Placed, Fits, Enabled, Apply, Routed, ValidRouting;
      PlacedHolds(r, windows, buffers, Apply(s, steps[0]), steps[1..]);
    }
  }

  /** When each queue pair has a buffer for every request that can be there at once, no run
      loses a message: what is on its way anywhere is covered by receives posted there. */
  lemma ClosedLoopNeverDrops(r: Routing, windows: seq<nat>, buffers: seq<nat>, s: State)
    requires ValidRouting(r, |windows|, |buffers|)
    requires Fits(r, windows, buffers) && Reachable(r, windows, buffers, s)
    ensures s.lost == multiset{}
    ensures |s.clients| == |windows| && |s.servers| == |buffers|
    ensures forall q | 0 <= q < |buffers| :: |s.servers[q].requests| <= s.servers[q].posted
    ensures forall i | 0 <= i < |windows| :: s.responses[i] <= s.clients[i].posted
  {
    ReachableInv(r, windows, buffers, s);
    StartInv(windows, buffers);
    var start := Start(windows, buffers);
    StartPlaced(r, windows, buffers);
    var steps :| Legal(r, start, steps) && After(r, start, steps) == s;
    PlacedHolds(r, windows, buffers, start, steps);
    InRange(windows, buffers, s);
    hide Inv, Fits, Placed;
    forall q | 0 <= q < |buffers| ensures |s.servers[q].requests| <= s.servers[q].posted {
      ServerHasRoom(r, windows, buffers, s, q);
    }
    forall i | 0 <= i < |windows| ensures s.responses[i] <= s.clients[i].posted {
      ClientHasRoom(windows, buffers, s, i);
    }
  }

  lemma StartPlaced(r: Routing, windows: seq<nat>, buffers: seq<nat>)
    ensures Placed(r, Start(windows, buffers))
  {
  }

  /** Nothing is under way or waiting to be handled. */
  ghost predicate Quiescent(s: State) {
    && (forall q | 0 <= q < |s.servers| ::
          s.servers[q].requests == multiset{} && s.servers[q].cq == [] && s.servers[q].hand.Empty?)
    && s.responses == multiset{}
    && (forall i | 0 <= i < |s.clients| :: s.clients[i].cq == 0)
  }

  /** Once everything has come to rest a client has received as many responses as it sent
      requests, short of what was lost. */
  lemma QuiescenceBalances(r: Routing, windows: seq<nat>, buffers: seq<nat>, s: State, i: nat)
    requires ValidRouting(r, |windows|, |buffers|)
    requires Reachable(r, windows, buffers, s) && Quiescent(s) && i < |s.clients|
    ensures s.clients[i].sent == s.clients[i].received + s.lost[i]
    ensures Fits(r, windows, buffers) ==> s.clients[i].sent == s.clients[i].received
  {
    ReachableInv(r, windows, buffers, s);
    assert ClientOk(s.clients[i], Outstanding(s)[i]);
    forall x | x in s.servers ensures ServerBag(x) == multiset{} {
    }
    Bags.SumEmpty(s.servers, ServerBag);
    if Fits(r, windows, buffers) {
      ClosedLoopNeverDrops(r, windows, buffers, s);
    }
  }

  lemma {:induction false} FindHolder(servers: seq<Server>, i: nat) returns (q: nat)
    requires i in Bags.Sum(servers, ServerBag)
    ensures q < |servers| && i in ServerBag(servers[q])
  {
    hide ServerBag;
    if i in ServerBag(servers[0]) {
      q := 0;
    } else {
      var p := FindHolder(servers[1..], i);
      q := p + 1;
    }
  }

  /** Where client `i` may send its next request. */
  lemma SomeTarget(r: Routing, s: State, i: nat) returns (q: nat)
    requires ValidRouting(r, |s.clients|, |s.servers|) && i < |s.clients| && s.servers != []
    ensures q < |s.servers| && (r.Rotating? ==> q == Offset(r.threads, r.starts[i], s.clients[i].sent))
  {
    if r.Rotating? {
      q := Offset(r.threads, r.starts[i], s.clients[i].sent);
      if s.clients[i].sent > 0 {
        OffsetInBlock(r.threads, r.starts[i], s.clients[i].sent);
      }
    } else {
      q := 0;
    }
  }

  /** The loop never stalls: while some client has a credit it has not retired, something other
      than retiring credits can happen. */
  lemma NeverStalls(r: Routing, windows: seq<nat>, buffers: seq<nat>, s: State, i: nat) returns (a: Action)
    requires ValidRouting(r, |windows|, |buffers|)
    requires Fits(r, windows, buffers) && Reachable(r, windows, buffers, s)
    requires i < |s.clients| && s.clients[i].stopped < s.clients[i].window && s.servers != []
    ensures Enabled(s, a) && Routed(r, s, a) && !a.Stop?
  {
    ReachableInv(r, windows, buffers, s);
    ClosedLoopNeverDrops(r, windows, buffers, s);
    var c := s.clients[i];
    assert ClientOk(c, Outstanding(s)[i]);
    var q := SomeTarget(r, s, i);
    if c.unsent > 0 {
      a := SendFirst(i, q);
    } else if c.ready > 0 {
      a := SendNext(i, q);
    } else if c.cq > 0 {
      a := RepostReceive(i);
    } else if i in s.responses {
      a := DeliverResponse(i);
    } else {
      assert i in Outstanding(s);
      assert i in Bags.Sum(s.servers, ServerBag);
      q := FindHolder(s.servers, i);
      a := ServerCanMove(s, q, i);
    }
  }

  lemma ServerCanMove(s: State, q: nat, i: nat) returns (a: Action)
    requires q < |s.servers| && i in ServerBag(s.servers[q])
    ensures Enabled(s, a) && !a.Stop? && !a.SendFirst? && !a.SendNext?
  {
    var x := s.servers[q];
    match x.hand {
      case Received(_) => a := Repost(q);
      case Reposted(_) => a := Answer(q);
      case Empty =>
        if i in x.requests {
          a := DeliverRequest(i, q);
        } else {
          a := Take(q);
        }
    }
  }
}
