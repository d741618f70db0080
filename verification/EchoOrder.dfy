/** The echo server that serves in order of arrival does: nothing overtakes. */
module EchoOrder {
  import opened Pipeline
  import opened Sequences
  import opened EchoServer

  /** The buffers of the receives among completions, in order. */
  ghost function Buffers(pipe: seq<Wc>): seq<nat> {
    if pipe == [] then []
    else (if pipe[0].RecvWc? then [pipe[0].buf] else []) + Buffers(pipe[1..])
  }

  lemma {:induction false} BuffersConcat(a: seq<Wc>, b: seq<Wc>)
    ensures Buffers(a + b) == Buffers(a) + Buffers(b)
  {
    if a == [] {
      assert a + b == b;
    } else {
      assert (a + b)[1..] == a[1..] + b;
      BuffersConcat(a[1..], b);
      Assoc(if a[0].RecvWc? then [a[0].buf] else [], Buffers(a[1..]), Buffers(b));
    }
  }

  lemma OneBuffer(w: Wc)
    ensures Buffers([w]) == if w.RecvWc? then [w.buf] else []
  {
    assert [w][1..] == [];
  }

  ghost function Arrivals(steps: seq<Action>): seq<nat> {
    if steps == [] then []
    else (if steps[0].Arrive? then [steps[0].buf] else []) + Arrivals(steps[1..])
  }

  ghost function Services(steps: seq<Action>): seq<nat> {
    if steps == [] then []
    else (if steps[0].Serve? then [steps[0].buf] else []) + Services(steps[1..])
  }

  lemma FirstArrival(steps: seq<Action>)
    requires steps != []
    ensures Arrivals([steps[0]]) == if steps[0].Arrive? then [steps[0].buf] else []
    ensures Arrivals(steps) == Arrivals([steps[0]]) + Arrivals(steps[1..])
  {
    assert [steps[0]][1..] == [];
  }

  lemma FirstService(steps: seq<Action>)
    requires steps != []
    ensures Services([steps[0]]) == if steps[0].Serve? then [steps[0].buf] else []
    ensures Services(steps) == Services([steps[0]]) + Services(steps[1..])
  {
    assert [steps[0]][1..] == [];
  }

  lemma FirstStep(steps: seq<Action>)
    requires steps != []
    ensures Arrivals(steps) == Arrivals([steps[0]]) + Arrivals(steps[1..])
    ensures Services(steps) == Services([steps[0]]) + Services(steps[1..])
    ensures Arrivals([steps[0]]) == if steps[0].Arrive? then [steps[0].buf] else []
    ensures Services([steps[0]]) == if steps[0].Serve? then [steps[0].buf] else []
  {
    hide *;
    FirstArrival(steps);
    FirstService(steps);
  }

  /** `filed` is what has been taken and not served: in order of arrival at most one receive. */
  ghost predicate FiledIs(s: Conn, filed: seq<nat>) {
    s.filed == multiset(filed) && |filed| <= 1
  }

  /** What is still to be served, in order. */
  ghost function Waiting(s: Conn, filed: seq<nat>): seq<nat> {
    filed + Buffers(Pipe(s))
  }

  lemma ArriveWaits(s: Conn, b: nat, src: nat, filed: seq<nat>, marks: iset<nat>)
    requires Enabled(Arrival, s, Arrive(b, src))
    ensures Waiting(Apply(s, Arrive(b, src), marks), filed) == Waiting(s, filed) + [b]
  {
    var t := Apply(s, Arrive(b, src), marks);
    assert Pipe(t) == Pipe(s) + [RecvWc(b, src)];
    BuffersConcat(Pipe(s), [RecvWc(b, src)]);
    OneBuffer(RecvWc(b, src));
    Assoc(filed, Buffers(Pipe(s)), [b]);
  }

  lemma SendWaits(s: Conn, filed: seq<nat>, marks: iset<nat>)
    requires Enabled(Arrival, s, Send)
    ensures Waiting(Apply(s, Send, marks), filed) == Waiting(s, filed)
  {
    var t := Apply(s, Send, marks);
    assert Pipe(t) == Pipe(s) + Completion(s.taken, marks);
    BuffersConcat(Pipe(s), Completion(s.taken, marks));
    OneBuffer(SendWc(s.taken));
    assert Buffers(Pipe(s)) + [] == Buffers(Pipe(s));
  }

  lemma PollWaits(s: Conn, n: nat, filed: seq<nat>, marks: iset<nat>)
    requires Enabled(Arrival, s, Poll(n))
    ensures Waiting(Apply(s, Poll(n), marks), filed) == Waiting(s, filed)
  {
    assert Pipe(Apply(s, Poll(n), marks)) == Pipe(s) == s.cq;
  }

  lemma TakeWaits(s: Conn, filed: seq<nat>, marks: iset<nat>) returns (filed': seq<nat>)
    requires Enabled(Arrival, s, Take) && FiledIs(s, filed)
    ensures FiledIs(Apply(s, Take, marks), filed')
    ensures Waiting(Apply(s, Take, marks), filed') == Waiting(s, filed)
  {
    var t, w := Apply(s, Take, marks), s.batch[0];
    assert filed == [] by {
      assert |multiset(filed)| == |filed|;
    }
    assert Pipe(s) == [w] + Pipe(t);
    BuffersConcat([w], Pipe(t));
    OneBuffer(w);
    filed' := if w.RecvWc? then [w.buf] else [];
    assert [] + Buffers(Pipe(s)) == Buffers(Pipe(s));
    hide Buffers, Pipe;
  }

  lemma ServeWaits(s: Conn, b: nat, filed: seq<nat>, marks: iset<nat>)
    requires Enabled(Arrival, s, Serve(b)) && FiledIs(s, filed)
    ensures FiledIs(Apply(s, Serve(b), marks), [])
    ensures [b] + Waiting(Apply(s, Serve(b), marks), []) == Waiting(s, filed)
  {
    assert |multiset(filed)| == |filed|;
    assert filed == [b];
    assert Pipe(Apply(s, Serve(b), marks)) == Pipe(s);
    hide Buffers, Pipe;
    assert [] + Buffers(Pipe(s)) == Buffers(Pipe(s));
  }

  lemma StepInOrder(s: Conn, a: Action, filed: seq<nat>, marks: iset<nat>) returns (filed': seq<nat>)
    requires Enabled(Arrival, s, a) && FiledIs(s, filed)
    ensures FiledIs(Apply(s, a, marks), filed')
    ensures Services([a]) + Waiting(Apply(s, a, marks), filed') == Waiting(s, filed) + Arrivals([a])
  {
    FirstStep([a]);
    filed' := filed;
    match a {
      case Arrive(b, src) => ArriveWaits(s, b, src, filed, marks);
      case Poll(n) => PollWaits(s, n, filed, marks);
      case Take => filed' := TakeWaits(s, filed, marks);
      case Serve(b) =>
        ServeWaits(s, b, filed, marks);
        filed' := [];
      case Repost =>
        assert Pipe(Apply(s, a, marks)) == Pipe(s);
      case Send => SendWaits(s, filed, marks);
    }
    hide Services, Arrivals, Waiting;
  }

  /** The receives that have been served, followed by those still waiting, are those that waited
      and those that arrived: each is served once, and in that order. */
  lemma {:induction false} ServedInOrderOfArrival(s: Conn, steps: seq<Action>, filed: seq<nat>, marks: iset<nat>)
      returns (filed': seq<nat>)
    requires Legal(Arrival, s, steps, marks) && FiledIs(s, filed)
    ensures FiledIs(After(Arrival, s, steps, marks), filed')
    ensures Services(steps) + Waiting(After(Arrival, s, steps, marks), filed') == Waiting(s, filed) + Arrivals(steps)
    decreases |steps|
  {
    if steps == [] {
      filed' := filed;
    } else {
      var a, rest := steps[0], steps[1..];
      var t := Apply(s, a, marks);
      FirstStep(steps);
      hide FiledIs, Waiting, Apply, Enabled, Services, Arrivals;
      var mid := StepInOrder(s, a, filed, marks);
      filed' := ServedInOrderOfArrival(t, rest, mid, marks);
      Chain(Services([a]), Waiting(t, mid), Waiting(s, filed), Arrivals([a]), Services(rest),
               Waiting(After(Arrival, s, steps, marks), filed'), Arrivals(rest));
    }
  }
}
