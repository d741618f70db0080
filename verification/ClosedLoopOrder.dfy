/** Each server of the closed loop answers in the order in which requests reached it. */
module ClosedLoopOrder {
  import opened Sequences
  import opened ClosedLoop

  /** The requests at a queue pair that are still to be answered, in order. */
  function Waiting(x: Server): seq<nat> {
    (if x.hand.Empty? then [] else [x.hand.src]) + x.cq
  }

  /** What a step receives at queue pair `q`, and what it answers there. */
  function Receives(s: State, a: Action, q: nat): seq<nat> {
    if a.DeliverRequest? && a.q == q && q < |s.servers| && s.servers[q].posted > 0 then [a.i] else []
  }

  function Answers(s: State, a: Action, q: nat): seq<nat> {
    if a.Answer? && a.q == q && q < |s.servers| && s.servers[q].hand.Reposted? then [s.servers[q].hand.src] else []
  }

  function AllReceived(s: State, steps: seq<Action>, q: nat): seq<nat>
    requires Legal(Anywhere, s, steps)
    decreases |steps|
  {
    if steps == [] then []
    else Receives(s, steps[0], q) + AllReceived(Apply(s, steps[0]), steps[1..], q)
  }

  function AllAnswered(s: State, steps: seq<Action>, q: nat): seq<nat>
    requires Legal(Anywhere, s, steps)
    decreases |steps|
  {
    if steps == [] then []
    else Answers(s, steps[0], q) + AllAnswered(Apply(s, steps[0]), steps[1..], q)
  }

  /** A run under any routing is one in which requests may go anywhere. */
  lemma {:induction false} AnyRouting(r: Routing, s: State, steps: seq<Action>)
    requires Legal(r, s, steps)
    ensures Legal(Anywhere, s, steps) && After(Anywhere, s, steps) == After(r, s, steps)
    decreases |steps|
  {
    hide Enabled, Apply;
    if steps != [] {
      AnyRouting(r, Apply(s, steps[0]), steps[1..]);
    }
  }

  /** What a step does at one queue pair. */
  lemma ServerAfter(s: State, a: Action, q: nat)
    requires Enabled(s, a) && q < |s.servers|
    ensures q < |Apply(s, a).servers| == |s.servers|
    ensures var x, y := s.servers[q], Apply(s, a).servers[q];
            && y.hand == (if a == Take(q) then Received(x.cq[0])
                          else if a == Repost(q) then Reposted(x.hand.src)
                          else if a == Answer(q) then Empty else x.hand)
            && y.cq == (if a == Take(q) then x.cq[1..] else x.cq + Receives(s, a, q))
  {
    if a.DeliverRequest? || a.SendFirst? || a.SendNext? {
      assert s.servers[q].cq + [] == s.servers[q].cq;
    }
  }

  lemma StepInOrder(s: State, a: Action, q: nat)
    requires Enabled(s, a) && q < |s.servers|
    ensures q < |Apply(s, a).servers| == |s.servers|
    ensures Answers(s, a, q) + Waiting(Apply(s, a).servers[q]) == Waiting(s.servers[q]) + Receives(s, a, q)
  {
    ServerAfter(s, a, q);
    var x := s.servers[q];
    var came := Receives(s, a, q);
    hide Apply, Receives;
    if a == Take(q) {
      assert x.cq == [x.cq[0]] + x.cq[1..];
      NoneReceived(s, a, q);
    } else if a == Answer(q) {
      NoneReceived(s, a, q);
    } else {
      Assoc(if x.hand.Empty? then [] else [x.hand.src], x.cq, came);
    }
  }

  lemma NoneReceived(s: State, a: Action, q: nat)
    requires !a.DeliverRequest?
    ensures Receives(s, a, q) == []
  {
  }

  /** The answers of a queue pair's server, followed by the requests still there, are the requests
      that were there and those that it received: first come, first served. */
  lemma {:induction false} AnsweredInOrder(s: State, steps: seq<Action>, q: nat)
    requires Legal(Anywhere, s, steps) && q < |s.servers|
    ensures q < |After(Anywhere, s, steps).servers|
    ensures AllAnswered(s, steps, q) + Waiting(After(Anywhere, s, steps).servers[q])
         == Waiting(s.servers[q]) + AllReceived(s, steps, q)
    decreases |steps|
  {
    if steps != [] {
      var a, t := steps[0], Apply(s, steps[0]);
      StepInOrder(s, a, q);
      hide Enabled, Apply, Waiting, Answers, Receives;
      AnsweredInOrder(t, steps[1..], q);
      Chain(Answers(s, a, q), Waiting(t.servers[q]), Waiting(s.servers[q]), Receives(s, a, q),
            AllAnswered(t, steps[1..], q), Waiting(After(Anywhere, s, steps).servers[q]),
            AllReceived(t, steps[1..], q));
    }
  }
}
