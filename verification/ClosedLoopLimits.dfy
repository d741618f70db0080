/** With fewer buffers at a queue pair than the requests that can be there at once, some run
    loses one. */
module ClosedLoopLimits {
  import Bags
  import opened ClosedLoop
  import opened ClosedLoopCredit
  import opened RoundRobinTargets

  lemma {:induction false} OneMore(r: Routing, s: State, steps: seq<Action>, a: Action)
    requires Legal(r, s, steps) && Enabled(After(r, s, steps), a) && Routed(r, After(r, s, steps), a)
    ensures Legal(r, s, steps + [a]) && After(r, s, steps + [a]) == Apply(After(r, s, steps), a)
    decreases |steps|
  {
    hide Enabled, Apply, Routed;
    if steps == [] {
      assert [a][1..] == [];
    } else {
      assert (steps + [a])[1..] == steps[1..] + [a];
      OneMore(r, Apply(s, steps[0]), steps[1..], a);
    }
  }

  lemma Next(r: Routing, windows: seq<nat>, buffers: seq<nat>, s: State, a: Action)
    requires Reachable(r, windows, buffers, s) && Enabled(s, a) && Routed(r, s, a)
    ensures Reachable(r, windows, buffers, Apply(s, a))
  {
    hide Enabled, Apply, Routed;
    var start := Start(windows, buffers);
    var steps :| Legal(r, start, steps) && After(r, start, steps) == s;
    OneMore(r, start, steps, a);
  }

  function Unsent(clients: seq<Client>): seq<nat> {
    seq(|clients|, i requires 0 <= i < |clients| => clients[i].unsent)
  }

  lemma {:induction false} SumUpdate(ns: seq<nat>, i: nat, n: nat)
    requires i < |ns|
    ensures Sum(ns[i := n]) == Sum(ns) - ns[i] + n
  {
    if i == 0 {
      assert ns[0 := n][1..] == ns[1..];
    } else {
      assert ns[i := n][1..] == ns[1..][i - 1 := n];
      SumUpdate(ns[1..], i - 1, n);
    }
  }

  lemma {:induction false} SomePositive(ns: seq<nat>) returns (i: nat)
    requires Sum(ns) > 0
    ensures i < |ns| && ns[i] > 0
  {
    if ns[0] > 0 {
      i := 0;
    } else {
      var j := SomePositive(ns[1..]);
      i := j + 1;
    }
  }

  /** `k` requests of the initial bursts have gone to queue pair `q`. */
  lemma {:induction false} Burst(windows: seq<nat>, buffers: seq<nat>, q: nat, k: nat) returns (s: State)
    requires q < |buffers| && k <= Sum(windows)
    ensures Reachable(Anywhere, windows, buffers, s) && |s.clients| == |windows| && |s.servers| == |buffers|
    ensures Sum(Unsent(s.clients)) == Sum(windows) - k
    ensures s.servers[q].posted == buffers[q] && |s.servers[q].requests| == k
    ensures forall i | i in s.servers[q].requests :: i < |s.clients|
  {
    hide Reachable;
    if k == 0 {
      s := Start(windows, buffers);
      StartReachable(Anywhere, windows, buffers);
      assert Unsent(s.clients) == windows;
    } else {
      var t := Burst(windows, buffers, q, k - 1);
      hide Start;
      var i := SomePositive(Unsent(t.clients));
      Next(Anywhere, windows, buffers, t, SendFirst(i, q));
      s := Apply(t, SendFirst(i, q));
      SumUpdate(Unsent(t.clients), i, t.clients[i].unsent - 1);
      assert Unsent(s.clients) == Unsent(t.clients)[i := t.clients[i].unsent - 1];
    }
  }

  lemma StartReachable(r: Routing, windows: seq<nat>, buffers: seq<nat>)
    ensures Reachable(r, windows, buffers, Start(windows, buffers))
  {
    var s := Start(windows, buffers);
    var none: seq<Action> := [];
    assert Legal(r, s, none) && After(r, s, none) == s;
  }

  /** More requests on their way than receives posted: if all of them arrive, one is lost. */
  lemma {:induction false} Overflow(r: Routing, windows: seq<nat>, buffers: seq<nat>, s: State, q: nat)
      returns (t: State)
    requires Reachable(r, windows, buffers, s)
    requires q < |s.servers| && |s.servers[q].requests| > s.servers[q].posted
    ensures Reachable(r, windows, buffers, t) && t.lost != multiset{}
    decreases s.servers[q].posted
  {
    hide Reachable;
    var i :| i in s.servers[q].requests;
    Next(r, windows, buffers, s, DeliverRequest(i, q));
    t := Apply(s, DeliverRequest(i, q));
    if s.servers[q].posted > 0 {
      t := Overflow(r, windows, buffers, t, q);
    } else {
      assert i in t.lost;
    }
  }

  // ---- rotating clients: credits pile up at one slow server ----

  /** All messages are requests on their way, and nothing is lost. */
  ghost predicate Tidy(windows: seq<nat>, buffers: seq<nat>, s: State) {
    && |s.clients| == |windows| && |s.servers| == |buffers|
    && s.responses == multiset{} && s.lost == multiset{}
    && (forall q | 0 <= q < |buffers| ::
          s.servers[q] == Server(buffers[q], buffers[q], s.servers[q].requests, [], Empty))
    && (forall i | 0 <= i < |windows| ::
          s.clients[i].posted == windows[i] && s.clients[i].cq == s.clients[i].ready == s.clients[i].stopped == 0)
  }

  /** Client `i`'s next request is sent. */
  ghost function Sent(s: State, i: nat, q: nat, first: bool): State
    requires i < |s.clients| && q < |s.servers| && (first ==> s.clients[i].unsent > 0)
  {
    var c := s.clients[i];
    s.(clients := s.clients[i := if first then c.(unsent := c.unsent - 1, sent := c.sent + 1)
                                  else c.(received := c.received + 1, sent := c.sent + 1)],
       servers := s.servers[q := s.servers[q].(requests := s.servers[q].requests + multiset{i})])
  }

  lemma SendOne(r: Routing, windows: seq<nat>, buffers: seq<nat>, s: State, i: nat, q: nat)
    requires Reachable(r, windows, buffers, s) && Tidy(windows, buffers, s)
    requires i < |windows| && q < |buffers| && s.clients[i].unsent > 0
    requires Routed(r, s, SendFirst(i, q))
    ensures Reachable(r, windows, buffers, Sent(s, i, q, true)) && Tidy(windows, buffers, Sent(s, i, q, true))
  {
    hide Reachable;
    Next(r, windows, buffers, s, SendFirst(i, q));
    assert Apply(s, SendFirst(i, q)) == Sent(s, i, q, true);
  }

  /** A request of client `i` leaves queue pair `p`. */
  ghost function Without(s: State, i: nat, p: nat): State
    requires p < |s.servers|
  {
    s.(servers := s.servers[p := s.servers[p].(requests := s.servers[p].requests - multiset{i})])
  }

  /** A request on its way to `p` is received, served and answered. */
  lemma ServeOne(r: Routing, windows: seq<nat>, buffers: seq<nat>, s: State, i: nat, p: nat)
    requires Reachable(r, windows, buffers, s) && Tidy(windows, buffers, s)
    requires i < |windows| && p < |buffers| && i in s.servers[p].requests && buffers[p] > 0
    ensures Reachable(r, windows, buffers, Without(s, i, p).(responses := multiset{i}))
  {
    hide Reachable;
    var x := s.servers[p];
    var less := x.requests - multiset{i};
    var t1 := s.(servers := s.servers[p := Server(buffers[p], buffers[p] - 1, less, [i], Empty)]);
    Next(r, windows, buffers, s, DeliverRequest(i, p));
    assert [] + [i] == [i] && [i][1..] == [];
    assert Apply(s, DeliverRequest(i, p)) == t1;
    Next(r, windows, buffers, t1, Take(p));
    var t2 := s.(servers := s.servers[p := Server(buffers[p], buffers[p] - 1, less, [], Received(i))]);
    assert Apply(t1, Take(p)) == t2;
    Next(r, windows, buffers, t2, Repost(p));
    var t3 := s.(servers := s.servers[p := Server(buffers[p], buffers[p], less, [], Reposted(i))]);
    assert Apply(t2, Repost(p)) == t3;
    Next(r, windows, buffers, t3, Answer(p));
    assert Apply(t3, Answer(p)) == Without(s, i, p).(responses := multiset{i});
  }

  /** Client `i`, its burst over, gets the response and sends again. */
  lemma AnswerOne(r: Routing, windows: seq<nat>, buffers: seq<nat>, s: State, i: nat, q: nat)
    requires Tidy(windows, buffers, s) && i < |windows| && q < |buffers| && windows[i] > 0
    requires Reachable(r, windows, buffers, s.(responses := multiset{i}))
    requires s.clients[i].unsent == 0 && Routed(r, s, SendNext(i, q))
    ensures Reachable(r, windows, buffers, Sent(s, i, q, false)) && Tidy(windows, buffers, Sent(s, i, q, false))
  {
    hide Reachable;
    var c := s.clients[i];
    var t := s.(responses := multiset{i});
    Next(r, windows, buffers, t, DeliverResponse(i));
    t := s.(clients := s.clients[i := c.(posted := c.posted - 1, cq := 1)]);
    assert multiset{i} - multiset{i} == multiset{};
    assert Apply(s.(responses := multiset{i}), DeliverResponse(i)) == t;
    Next(r, windows, buffers, t, RepostReceive(i));
    var u := s.(clients := s.clients[i := c.(received := c.received + 1, ready := 1)]);
    assert Apply(t, RepostReceive(i)) == u;
    Next(r, windows, buffers, u, SendNext(i, q));
    assert Apply(u, SendNext(i, q)) == Sent(s, i, q, false);
  }

  /** The other clients and their messages are as they were. */
  ghost predicate OthersKept(s: State, t: State, i: nat) {
    && |t.clients| == |s.clients| && |t.servers| == |s.servers|
    && (forall k | 0 <= k < |s.clients| && k != i :: t.clients[k] == s.clients[k])
    && forall d, k | 0 <= d < |s.servers| && k != i :: t.servers[d].requests[k] == s.servers[d].requests[k]
  }

  /** A request of client `i` left `p`, and another was sent to `q`. */
  lemma RequestMoved(s: State, i: nat, p: nat, q: nat)
    requires i < |s.clients| && p < |s.servers| && q < |s.servers| && i in s.servers[p].requests
    ensures var t := Sent(Without(s, i, p), i, q, false);
            && OthersKept(s, t, i)
            && t.clients[i].sent == s.clients[i].sent + 1 && t.clients[i].unsent == s.clients[i].unsent
            && forall d | 0 <= d < |s.servers| ::
                 t.servers[d].requests[i] == s.servers[d].requests[i] - (if d == p then 1 else 0)
                   + if d == q then 1 else 0
  {
  }

  /** A request of client `i` that is not at `q` comes back and another goes to where the
      rotation stands, unless a queue pair without buffers loses it. */
  lemma Circulate(r: Routing, windows: seq<nat>, buffers: seq<nat>, s: State, i: nat, p: nat)
      returns (t: State)
    requires r.Rotating? && ValidRouting(r, |windows|, |buffers|)
    requires Reachable(r, windows, buffers, s) && Tidy(windows, buffers, s)
    requires i < |windows| && p < |buffers| && i in s.servers[p].requests && s.clients[i].unsent == 0
    requires windows[i] > 0
    ensures Reachable(r, windows, buffers, t)
    ensures t.lost == multiset{} ==>
              && Tidy(windows, buffers, t) && OthersKept(s, t, i)
              && t.clients[i].sent == s.clients[i].sent + 1 && t.clients[i].unsent == 0
    ensures t.lost == multiset{} ==>
              forall d | 0 <= d < |buffers| ::
                t.servers[d].requests[i] == s.servers[d].requests[i] - (if d == p then 1 else 0)
                  + if d == Offset(r.threads, r.starts[i], s.clients[i].sent) then 1 else 0
  {
    hide Reachable;
    if buffers[p] == 0 {
      Next(r, windows, buffers, s, DeliverRequest(i, p));
      t := Apply(s, DeliverRequest(i, p));
      assert i in t.lost;
    } else {
      var q := SomeTarget(r, s, i);
      ServeOne(r, windows, buffers, s, i, p);
      AnswerOne(r, windows, buffers, Without(s, i, p), i, q);
      t := Sent(Without(s, i, p), i, q, false);
      RequestMoved(s, i, p, q);
      hide Sent, Without, Tidy, OthersKept;
    }
  }

  /** Client `i` sends what is left of its initial burst. */
  lemma {:induction false} BurstOf(r: Routing, windows: seq<nat>, buffers: seq<nat>, s: State, i: nat, q: nat)
      returns (t: State)
    requires r.Rotating? && ValidRouting(r, |windows|, |buffers|)
    requires Reachable(r, windows, buffers, s) && Tidy(windows, buffers, s)
    requires i < |windows| && q < |buffers|
    ensures Reachable(r, windows, buffers, t) && Tidy(windows, buffers, t) && OthersKept(s, t, i)
    ensures t.clients[i].unsent == 0 && t.servers[q].requests[i] >= s.servers[q].requests[i]
    ensures s.clients[i].sent == 0 && s.clients[i].unsent > 0 && q == r.starts[i] ==>
              t.servers[q].requests[i] >= 1
    decreases s.clients[i].unsent
  {
    hide Reachable, Tidy;
    TidyShape(windows, buffers, s);
    if s.clients[i].unsent == 0 {
      t := s;
    } else {
      var d := SomeTarget(r, s, i);
      SendOne(r, windows, buffers, s, i, d);
      t := BurstOf(r, windows, buffers, Sent(s, i, d, true), i, q);
    }
  }

  lemma TidyShape(windows: seq<nat>, buffers: seq<nat>, s: State)
    requires Tidy(windows, buffers, s)
    ensures |s.clients| == |windows| && |s.servers| == |buffers| && s.lost == multiset{}
  {
  }

  lemma {:induction false} FindOther(servers: seq<Server>, q: nat, i: nat) returns (p: nat)
    requires q < |servers| && Bags.Sum(servers, ServerBag)[i] > ServerBag(servers[q])[i]
    ensures p < |servers| && p != q && i in ServerBag(servers[p])
  {
    hide ServerBag;
    if q == 0 {
      p := FindHolder(servers[1..], i);
      p := p + 1;
    } else if i in ServerBag(servers[0]) {
      p := 0;
    } else {
      p := FindOther(servers[1..], q - 1, i);
      p := p + 1;
    }
  }

  /** A client that has sent its burst and does not have all its requests at `q` has one
      elsewhere. */
  lemma Elsewhere(r: Routing, windows: seq<nat>, buffers: seq<nat>, s: State, i: nat, q: nat) returns (p: nat)
    requires Reachable(r, windows, buffers, s) && Tidy(windows, buffers, s)
    requires i < |windows| && q < |buffers| && s.clients[i].unsent == 0
    requires s.servers[q].requests[i] < windows[i]
    ensures p < |buffers| && p != q && i in s.servers[p].requests
  {
    ReachableInv(r, windows, buffers, s);
    assert ClientOk(s.clients[i], Outstanding(s)[i]);
    hide Reachable, Inv;
    assert multiset(s.servers[q].cq) == multiset{};
    p := FindOther(s.servers, q, i);
    assert multiset(s.servers[p].cq) == multiset{};
  }

  /** One more request of client `i` ends up at `q`, the next it visits with request `m`. */
  lemma {:induction false} HerdOne(r: Routing, windows: seq<nat>, buffers: seq<nat>, s: State, i: nat, q: nat,
                                   m: nat)
      returns (t: State)
    requires r.Rotating? && ValidRouting(r, |windows|, |buffers|)
    requires Reachable(r, windows, buffers, s) && Tidy(windows, buffers, s)
    requires i < |windows| && q < |buffers| && s.clients[i].unsent == 0
    requires s.servers[q].requests[i] < windows[i]
    requires s.clients[i].sent <= m && Offset(r.threads, r.starts[i], m) == q
    ensures Reachable(r, windows, buffers, t)
    ensures t.lost == multiset{} ==>
              && Tidy(windows, buffers, t) && OthersKept(s, t, i) && t.clients[i].unsent == 0
              && t.servers[q].requests[i] > s.servers[q].requests[i]
    decreases m - s.clients[i].sent
  {
    var p := Elsewhere(r, windows, buffers, s, i, q);
    TidyShape(windows, buffers, s);
    hide Reachable, Tidy, Offset;
    t := Circulate(r, windows, buffers, s, i, p);
    if t.lost == multiset{} && s.clients[i].sent < m
       && Offset(r.threads, r.starts[i], s.clients[i].sent) != q {
      var u := t;
      t := HerdOne(r, windows, buffers, u, i, q, m);
    }
  }

  /** All requests of client `i` end up at a queue pair that it keeps coming back to. */
  lemma {:induction false} Herd(r: Routing, windows: seq<nat>, buffers: seq<nat>, s: State, i: nat, q: nat)
      returns (t: State)
    requires r.Rotating? && ValidRouting(r, |windows|, |buffers|)
    requires Reachable(r, windows, buffers, s) && Tidy(windows, buffers, s)
    requires i < |windows| && q < |buffers| && s.clients[i].unsent == 0
    requires q < r.threads && Returns(r.threads, r.starts[i], q)
    ensures Reachable(r, windows, buffers, t)
    ensures t.lost == multiset{} ==>
              && Tidy(windows, buffers, t) && OthersKept(s, t, i)
              && t.servers[q].requests[i] >= windows[i]
    decreases if s.servers[q].requests[i] < windows[i] then windows[i] - s.servers[q].requests[i] else 0
  {
    TidyShape(windows, buffers, s);
    hide Reachable, Tidy, Offset, Returns;
    if s.servers[q].requests[i] >= windows[i] {
      t := s;
    } else {
      var m := NextVisit(r.threads, r.starts[i], q, s.clients[i].sent);
      t := HerdOne(r, windows, buffers, s, i, q, m);
      if t.lost == multiset{} {
        var u := t;
        t := Herd(r, windows, buffers, u, i, q);
      }
    }
  }

  /** Client `i` brings its share to `q`. */
  lemma Park(r: Routing, windows: seq<nat>, buffers: seq<nat>, s: State, i: nat, q: nat) returns (t: State)
    requires r.Rotating? && ValidRouting(r, |windows|, |buffers|)
    requires Reachable(r, windows, buffers, s) && Tidy(windows, buffers, s)
    requires i < |windows| && q < |buffers| && s.clients[i].sent == 0 && s.clients[i].unsent == windows[i]
    ensures Reachable(r, windows, buffers, t)
    ensures t.lost == multiset{} ==>
              && Tidy(windows, buffers, t) && OthersKept(s, t, i)
              && t.servers[q].requests[i] >= Share(r, windows, q, i)
  {
    TidyShape(windows, buffers, s);
    hide Reachable, Tidy, Returns;
    t := BurstOf(r, windows, buffers, s, i, q);
    if q < r.threads && Returns(r.threads, r.starts[i], q) {
      var u := t;
      t := Herd(r, windows, buffers, u, i, q);
    }
  }

  /** The first `n` clients do, one after the other. */
  lemma {:induction false} ParkAll(r: Routing, windows: seq<nat>, buffers: seq<nat>, q: nat, n: nat)
      returns (t: State)
    requires r.Rotating? && ValidRouting(r, |windows|, |buffers|) && n <= |windows| && q < |buffers|
    ensures Reachable(r, windows, buffers, t)
    ensures t.lost == multiset{} ==>
              && Tidy(windows, buffers, t)
              && (forall k | 0 <= k < n :: t.servers[q].requests[k] >= Share(r, windows, q, k))
              && forall k | n <= k < |windows| :: t.clients[k].sent == 0 && t.clients[k].unsent == windows[k]
  {
    if n == 0 {
      t := Start(windows, buffers);
      StartReachable(r, windows, buffers);
    } else {
      var s := ParkAll(r, windows, buffers, q, n - 1);
      hide Reachable, Share;
      t := s;
      if s.lost == multiset{} {
        t := Park(r, windows, buffers, s, n - 1, q);
      }
    }
  }

  lemma {:induction false} CountAtLeast(bag: multiset<nat>, limits: seq<nat>)
    requires forall i | 0 <= i < |limits| :: bag[i] >= limits[i]
    ensures |bag| >= Sum(limits)
    decreases |limits|
  {
    if limits != [] {
      var n := |limits| - 1;
      CountAtLeast(bag[n := 0], limits[..n]);
      SumLast(limits[..n], limits[n]);
      assert limits == limits[..n] + [limits[n]];
    }
  }

  lemma SomeRunDrops(r: Routing, windows: seq<nat>, buffers: seq<nat>, q: nat) returns (s: State)
    requires ValidRouting(r, |windows|, |buffers|)
    requires q < |buffers| && buffers[q] < Sum(Shares(r, windows, q))
    ensures Reachable(r, windows, buffers, s) && s.lost != multiset{}
  {
    hide Reachable, Share;
    if r.Rotating? {
      s := ParkAll(r, windows, buffers, q, |windows|);
      if s.lost == multiset{} {
        CountAtLeast(s.servers[q].requests, Shares(r, windows, q));
        s := Overflow(r, windows, buffers, s, q);
      }
    } else {
      SharesAnywhere(windows, q);
      s := Burst(windows, buffers, q, Sum(windows));
      s := Overflow(r, windows, buffers, s, q);
    }
  }

  lemma SharesAnywhere(windows: seq<nat>, q: nat)
    ensures Shares(Anywhere, windows, q) == windows
  {
  }

  /** No run loses a message exactly when every queue pair has a buffer for every request that
      can be there at once. */
  lemma NeverDropsIff(r: Routing, windows: seq<nat>, buffers: seq<nat>)
    requires ValidRouting(r, |windows|, |buffers|)
    ensures (forall s | Reachable(r, windows, buffers, s) :: s.lost == multiset{})
       <==> forall q | 0 <= q < |buffers| :: Sum(Shares(r, windows, q)) <= buffers[q]
  {
    hide Reachable;
    if q :| 0 <= q < |buffers| && buffers[q] < Sum(Shares(r, windows, q)) {
      var s := SomeRunDrops(r, windows, buffers, q);
    } else {
      assert Fits(r, windows, buffers);
      forall s | Reachable(r, windows, buffers, s) ensures s.lost == multiset{} {
        ClosedLoopNeverDrops(r, windows, buffers, s);
      }
    }
  }

  /** With a power of two of server threads in rotation, one to a queue pair, that is a buffer
      for each credit at every queue pair; and so it is if requests go anywhere. */
  lemma NeverDropsEvenlyIff(r: Routing, windows: seq<nat>, buffers: seq<nat>)
    requires ValidRouting(r, |windows|, |buffers|)
    requires r.Rotating? ==> PowerOfTwo(r.threads) && r.threads == |buffers|
    ensures (forall s | Reachable(r, windows, buffers, s) :: s.lost == multiset{})
       <==> forall q | 0 <= q < |buffers| :: Sum(windows) <= buffers[q]
  {
    hide Reachable;
    NeverDropsIff(r, windows, buffers);
    forall q | 0 <= q < |buffers| ensures Shares(r, windows, q) == windows {
      forall i | 0 <= i < |windows| ensures Share(r, windows, q, i) == windows[i] {
        if r.Rotating? {
          AllReturn(r.threads, r.starts[i], q);
        }
      }
    }
  }
}
