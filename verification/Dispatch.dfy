/** What the dispatch loop is meant to do, stated on the queues alone: no index, no
    iterators, no lazy erasure. `PriorityServer` refines this; the service guarantees are
    proved about it. */
module Dispatch {
  import opened OrderedIndex
  import opened Sequences

  datatype RecvReq = RecvReq(bufID: nat, srcQP: nat)

  type Queues = seq<seq<RecvReq>>

  datatype Mode = Strict | RoundRobin | Weighted(weights: seq<nat>)

  /** `last` is the class served last, or -1; `count` is the eight-bit burst counter. */
  datatype State = State(queues: Queues, last: int, count: nat)

  datatype Service = Service(class_: nat, req: RecvReq)

  datatype Event = Arrive(class_: nat, req: RecvReq) | Iterate

  ghost predicate WellFormed(m: Mode, s: State) {
    && -1 <= s.last < |s.queues|
    && s.count < 256
    && (m.Weighted? ==> |m.weights| == |s.queues|)
  }

  ghost function Backlogged(qs: Queues): set<nat> {
    set c | 0 <= c < |qs| && qs[c] != []
  }

  /** The first of `classes` after `last`, wrapping round to the least. */
  ghost function NextClass(classes: set<nat>, last: int): (c: nat)
    requires classes != {}
    ensures c in classes
    ensures last < c ==> forall x | x in classes && last < x :: c <= x
    ensures c <= last ==> forall x | x in classes :: c <= x <= last
  {
    var later := set x | x in classes && last < x;
    assert forall x | x in classes && last < x :: x in later;
    if later == {} then Least(classes) else Least(later)
  }

  /** Whether weighted round robin leaves the current class: its weight is used up or it is
      empty, and some other class is waiting. */
  ghost predicate Rotates(weights: seq<nat>, s: State)
    requires WellFormed(Weighted(weights), s)
  {
    && s.last != -1
    && Backlogged(s.queues) != {s.last}
    && (s.queues[s.last] == [] || s.count == weights[s.last])
  }

  ghost function Choice(m: Mode, s: State): (c: nat)
    requires WellFormed(m, s) && Backlogged(s.queues) != {}
    ensures c in Backlogged(s.queues)
  {
    match m
    case Strict => Least(Backlogged(s.queues))
    case RoundRobin => NextClass(Backlogged(s.queues), s.last)
    case Weighted(weights) =>
      if s.last == -1 || Rotates(weights, s) then NextClass(Backlogged(s.queues), s.last)
      else
        assert s.last in Backlogged(s.queues);
        s.last
  }

  /** Takes the oldest request of class `c`. */
  ghost function TakeFrom(s: State, c: nat): State
    requires c in Backlogged(s.queues)
  {
    State(s.queues[c := s.queues[c][1..]], c, s.count)
  }

  /** `count++` in eight bits. */
  function Increment(count: nat): (r: nat)
    requires count < 256
    ensures r == (count + 1) % 256
  {
    if count == 255 then 0 else count + 1
  }

  /** The burst counter after a service. */
  ghost function Counted(m: Mode, s: State): nat
    requires WellFormed(m, s)
  {
    match m
    case Weighted(weights) => if Rotates(weights, s) then 1 else Increment(s.count)
    case _ => s.count
  }

  /** One iteration of the loop. With nothing waiting, the round robin modes forget their
      position. */
  ghost function Serve(m: Mode, s: State): (t: State)
    requires WellFormed(m, s)
    ensures WellFormed(m, t) && |t.queues| == |s.queues|
  {
    if Backlogged(s.queues) == {} then
      if m.Strict? then s else s.(last := -1)
    else
      TakeFrom(s, Choice(m, s)).(count := Counted(m, s))
  }

  ghost function Served(m: Mode, s: State): seq<Service>
    requires WellFormed(m, s)
  {
    if Backlogged(s.queues) == {} then [] else [Service(Choice(m, s), s.queues[Choice(m, s)][0])]
  }

  ghost function File(s: State, c: nat, r: RecvReq): (t: State)
    requires c < |s.queues|
    ensures |t.queues| == |s.queues|
  {
    s.(queues := s.queues[c := s.queues[c] + [r]])
  }

  /** Requests waiting in class `c` and above. */
  ghost function Total(qs: Queues, c: nat): nat
    requires c <= |qs|
    decreases |qs| - c
  {
    if c == |qs| then 0 else |qs[c]| + Total(qs, c + 1)
  }

  lemma {:induction false} TotalUpdate(qs: Queues, c: nat, d: nat, q: seq<RecvReq>)
    requires c <= |qs| && d < |qs|
    ensures Total(qs[d := q], c) == Total(qs, c) + if c <= d then |q| - |qs[d]| else 0
    decreases |qs| - c
  {
    if c < |qs| {
      TotalUpdate(qs, c + 1, d, q);
    }
  }

  lemma {:induction false} NothingWaiting(qs: Queues, c: nat)
    requires c <= |qs|
    ensures Backlogged(qs) == {} ==> Total(qs, c) == 0
    ensures Total(qs, 0) == 0 ==> Backlogged(qs) == {}
    decreases |qs| - c
  {
    if d :| d in Backlogged(qs) {
      TotalUpdate(qs, 0, d, []);
    }
    if c < |qs| {
      assert c !in Backlogged(qs) ==> qs[c] == [];
      NothingWaiting(qs, c + 1);
    }
  }

  // ---- runs: arrivals and loop iterations in any order ----

  /** Where every server starts: nothing filed, nothing served, nothing counted. */
  ghost function Empty(n: nat): (s: State)
    ensures |s.queues| == n && WellFormed(Strict, s)
  {
    State(seq(n, _ => []), -1, 0)
  }

  ghost predicate Admissible(n: nat, es: seq<Event>) {
    forall i | 0 <= i < |es| :: es[i].Arrive? ==> es[i].class_ < n
  }

  ghost function Step(m: Mode, s: State, e: Event): (t: State)
    requires WellFormed(m, s) && (e.Arrive? ==> e.class_ < |s.queues|)
    ensures WellFormed(m, t) && |t.queues| == |s.queues|
  {
    match e
    case Arrive(c, r) => File(s, c, r)
    case Iterate => Serve(m, s)
  }

  ghost function Run(m: Mode, s: State, es: seq<Event>): (t: State)
    requires WellFormed(m, s) && Admissible(|s.queues|, es)
    ensures WellFormed(m, t) && |t.queues| == |s.queues|
    decreases |es|
  {
    if es == [] then s else Run(m, Step(m, s, es[0]), es[1..])
  }

  ghost function Outputs(m: Mode, s: State, es: seq<Event>): seq<Service>
    requires WellFormed(m, s) && Admissible(|s.queues|, es)
    decreases |es|
  {
    if es == [] then []
    else (if es[0].Iterate? then Served(m, s) else []) + Outputs(m, Step(m, s, es[0]), es[1..])
  }

  ghost function Iterations(es: seq<Event>): nat {
    if es == [] then 0 else (if es[0].Iterate? then 1 else 0) + Iterations(es[1..])
  }

  ghost function OfClass(out: seq<Service>, c: nat): seq<RecvReq> {
    if out == [] then []
    else (if out[0].class_ == c then [out[0].req] else []) + OfClass(out[1..], c)
  }

  ghost function Arrivals(es: seq<Event>, c: nat): seq<RecvReq> {
    if es == [] then []
    else (if es[0].Arrive? && es[0].class_ == c then [es[0].req] else []) + Arrivals(es[1..], c)
  }

  lemma {:induction false} NoneOfClass(out: seq<Service>, d: nat)
    requires forall i | 0 <= i < |out| :: out[i].class_ != d
    ensures OfClass(out, d) == []
  {
    if out != [] {
      NoneOfClass(out[1..], d);
    }
  }

  lemma {:induction false} OfClassConcat(a: seq<Service>, b: seq<Service>, c: nat)
    ensures OfClass(a + b, c) == OfClass(a, c) + OfClass(b, c)
  {
    if a == [] {
      assert a + b == b;
    } else {
      assert (a + b)[0] == a[0] && (a + b)[1..] == a[1..] + b;
      OfClassConcat(a[1..], b, c);
      var first := if a[0].class_ == c then [a[0].req] else [];
      assert OfClass(a + b, c) == first + (OfClass(a[1..], c) + OfClass(b, c));
      assert OfClass(a, c) == first + OfClass(a[1..], c);
    }
  }

  /** One event: what it outputs of class `c` comes off the front of the queue, what it files
      goes on the back. */
  lemma StepKeepsOrder(m: Mode, s: State, e: Event, c: nat)
    requires WellFormed(m, s) && (e.Arrive? ==> e.class_ < |s.queues|) && c < |s.queues|
    ensures OfClass(if e.Iterate? then Served(m, s) else [], c) + Step(m, s, e).queues[c]
         == s.queues[c] + (if e.Arrive? && e.class_ == c then [e.req] else [])
  {
    hide OfClass;
    NothingOfClass(c);
    if e.Iterate? && Backlogged(s.queues) != {} {
      TakeKeepsOrder(s, Choice(m, s), c);
      hide Choice, Counted;
    }
  }

  lemma NothingOfClass(c: nat)
    ensures OfClass([], c) == []
  {
  }

  lemma TakeKeepsOrder(s: State, d: nat, c: nat)
    requires d in Backlogged(s.queues) && c < |s.queues|
    ensures OfClass([Service(d, s.queues[d][0])], c) + TakeFrom(s, d).queues[c] == s.queues[c]
  {
    assert [Service(d, s.queues[d][0])][1..] == [];
    assert s.queues[d] == [s.queues[d][0]] + s.queues[d][1..];
  }

  /** Nothing is lost, repeated or reordered within a class, whatever the mode and however
      arrivals and iterations interleave. */
  lemma {:induction false} FifoWithinClass(m: Mode, s: State, es: seq<Event>, c: nat)
    requires WellFormed(m, s) && Admissible(|s.queues|, es) && c < |s.queues|
    ensures OfClass(Outputs(m, s, es), c) + Run(m, s, es).queues[c]
         == s.queues[c] + Arrivals(es, c)
    decreases |es|
  {
    if es != [] {
      var t := Step(m, s, es[0]);
      var first := if es[0].Iterate? then Served(m, s) else [];
      var rest := Outputs(m, t, es[1..]);
      var filed := if es[0].Arrive? && es[0].class_ == c then [es[0].req] else [];
      StepKeepsOrder(m, s, es[0], c);
      FifoWithinClass(m, t, es[1..], c);
      OfClassConcat(first, rest, c);
      Chain(OfClass(first, c), t.queues[c], s.queues[c], filed,
             OfClass(rest, c), Run(m, s, es).queues[c], Arrivals(es[1..], c));
    }
  }

  /** Hence the request waiting at position `k` is the `k`-th of its class to come out. */
  lemma ServedInTurn(m: Mode, s: State, es: seq<Event>, c: nat, k: nat)
    requires WellFormed(m, s) && Admissible(|s.queues|, es)
    requires c < |s.queues| && k < |s.queues[c]|
    requires k < |OfClass(Outputs(m, s, es), c)|
    ensures OfClass(Outputs(m, s, es), c)[k] == s.queues[c][k]
  {
    FifoWithinClass(m, s, es, c);
    var out := OfClass(Outputs(m, s, es), c);
    assert (out + Run(m, s, es).queues[c])[k] == (s.queues[c] + Arrivals(es, c))[k];
  }

  lemma AdmissibleConcat(n: nat, a: seq<Event>, b: seq<Event>)
    ensures Admissible(n, a + b) <==> Admissible(n, a) && Admissible(n, b)
  {
    assert forall i | 0 <= i < |b| :: (a + b)[|a| + i] == b[i];
    assert forall i | 0 <= i < |a| :: (a + b)[i] == a[i];
  }

  lemma {:induction false} RunConcat(m: Mode, s: State, a: seq<Event>, b: seq<Event>)
    requires WellFormed(m, s) && Admissible(|s.queues|, a) && Admissible(|s.queues|, b)
    ensures Admissible(|s.queues|, a + b) && Run(m, s, a + b) == Run(m, Run(m, s, a), b)
    decreases |a|
  {
    AdmissibleConcat(|s.queues|, a, b);
    hide Step, WellFormed;
    if a == [] {
      assert a + b == b;
    } else {
      assert (a + b)[0] == a[0] && (a + b)[1..] == a[1..] + b;
      RunConcat(m, Step(m, s, a[0]), a[1..], b);
    }
  }

  lemma {:induction false} OutputsConcat(m: Mode, s: State, a: seq<Event>, b: seq<Event>)
    requires WellFormed(m, s) && Admissible(|s.queues|, a) && Admissible(|s.queues|, b)
    ensures Admissible(|s.queues|, a + b)
    ensures Outputs(m, s, a + b) == Outputs(m, s, a) + Outputs(m, Run(m, s, a), b)
    decreases |a|
  {
    AdmissibleConcat(|s.queues|, a, b);
    hide Step, WellFormed, Served;
    if a == [] {
      assert a + b == b;
    } else {
      assert (a + b)[0] == a[0] && (a + b)[1..] == a[1..] + b;
      var t := Step(m, s, a[0]);
      OutputsConcat(m, t, a[1..], b);
      Assoc(if a[0].Iterate? then Served(m, s) else [], Outputs(m, t, a[1..]), Outputs(m, Run(m, s, a), b));
    }
  }

  // ---- what an idle iteration forgets ----

  ghost predicate AllArrive(es: seq<Event>) {
    forall i | 0 <= i < |es| :: es[i].Arrive?
  }

  /** Arrivals alone put out nothing and move nothing. */
  lemma {:induction false} ArrivalsOnly(m: Mode, s: State, es: seq<Event>)
    requires WellFormed(m, s) && Admissible(|s.queues|, es) && AllArrive(es)
    ensures Outputs(m, s, es) == []
    ensures Run(m, s, es).last == s.last && Run(m, s, es).count == s.count
    ensures forall c | 0 <= c < |s.queues| :: Run(m, s, es).queues[c] == s.queues[c] + Arrivals(es, c)
    decreases |es|
  {
    if es != [] {
      assert es[0].Arrive?;
      ArrivalsOnly(m, Step(m, s, es[0]), es[1..]);
    }
    forall c | 0 <= c < |s.queues| ensures Run(m, s, es).queues[c] == s.queues[c] + Arrivals(es, c) {
      FifoWithinClass(m, s, es, c);
    }
  }

  /** The first request that came in the least class of those that got any. */
  ghost predicate FirstOfLeast(x: Service, es: seq<Event>) {
    && Arrivals(es, x.class_) != [] && x.req == Arrivals(es, x.class_)[0]
    && forall c | 0 <= c < x.class_ :: Arrivals(es, c) == []
  }

  /** Arrivals come in while nothing waits. */
  lemma IdleFilled(m: Mode, s: State, es: seq<Event>)
    requires WellFormed(m, s) && Admissible(|s.queues|, es) && AllArrive(es)
    requires Backlogged(s.queues) == {}
    ensures forall c | 0 <= c < |s.queues| :: Run(m, s, es).queues[c] == Arrivals(es, c)
    ensures es != [] ==> Backlogged(Run(m, s, es).queues) != {}
  {
    ArrivalsOnly(m, s, es);
    forall c | 0 <= c < |s.queues| ensures Run(m, s, es).queues[c] == Arrivals(es, c) {
      assert c !in Backlogged(s.queues);
      assert s.queues[c] + Arrivals(es, c) == Arrivals(es, c);
    }
    if es != [] {
      assert es[0].class_ in Backlogged(Run(m, s, es).queues);
    }
  }

  /** The loop comes round with nothing waiting, and then requests arrive. */
  lemma AfterIdle(m: Mode, s: State, fill: seq<Event>)
    requires WellFormed(m, s) && Admissible(|s.queues|, fill) && AllArrive(fill)
    requires Backlogged(s.queues) == {} && Admissible(|s.queues|, [Iterate] + fill)
    ensures Outputs(m, s, [Iterate] + fill) == []
    ensures var f := Run(m, s, [Iterate] + fill);
            (!m.Strict? ==> f.last == -1) && f.count == s.count
            && forall c | 0 <= c < |f.queues| :: f.queues[c] == Arrivals(fill, c)
  {
    var idle := Step(m, s, Iterate);
    OneIteration(m, s);
    RunConcat(m, s, [Iterate], fill);
    OutputsConcat(m, s, [Iterate], fill);
    ArrivalsOnly(m, idle, fill);
    IdleFilled(m, idle, fill);
  }

  /** Whatever the mode and whichever class was served last, once the loop has come round with
      nothing waiting the next service is of the least class that gets a request. */
  lemma ForgetsPosition(m: Mode, s: State, es: seq<Event>)
    requires WellFormed(m, s) && Admissible(|s.queues|, es) && AllArrive(es) && es != []
    requires Backlogged(s.queues) == {}
    ensures Admissible(|s.queues|, [Iterate] + es + [Iterate])
    ensures var out := Outputs(m, s, [Iterate] + es + [Iterate]);
            |out| == 1 && FirstOfLeast(out[0], es)
  {
    var f := Run(m, s, [Iterate] + es);
    AdmissibleConcat(|s.queues|, [Iterate], es);
    AdmissibleConcat(|s.queues|, [Iterate] + es, [Iterate]);
    AfterIdle(m, s, es);
    OutputsConcat(m, s, [Iterate] + es, [Iterate]);
    OneIteration(m, f);
    assert es[0].class_ in Backlogged(f.queues);
    hide Run, Outputs;
    var d := Choice(m, f);
    assert d == Least(Backlogged(f.queues));
    forall c | 0 <= c < d ensures Arrivals(es, c) == [] {
      assert c !in Backlogged(f.queues);
    }
  }

  lemma OneIteration(m: Mode, s: State)
    requires WellFormed(m, s)
    ensures Admissible(|s.queues|, [Iterate]) && Outputs(m, s, [Iterate]) == Served(m, s)
    ensures Run(m, s, [Iterate]) == Serve(m, s)
  {
    assert [Iterate][1..] == [];
  }

  /** The first class after `last`, wrapping round, of those that got a request. */
  ghost predicate FirstAfter(x: Service, es: seq<Event>, last: int) {
    && Arrivals(es, x.class_) != [] && x.req == Arrivals(es, x.class_)[0]
    && forall c: nat | Arrivals(es, c) != [] ::
         if last < x.class_ then c <= last || x.class_ <= c else x.class_ <= c <= last
  }

  /** Until then round robin keeps its position. */
  lemma RemembersPosition(s: State, es: seq<Event>)
    requires WellFormed(RoundRobin, s) && Admissible(|s.queues|, es) && AllArrive(es) && es != []
    requires Backlogged(s.queues) == {}
    ensures Admissible(|s.queues|, es + [Iterate])
    ensures var out := Outputs(RoundRobin, s, es + [Iterate]);
            |out| == 1 && FirstAfter(out[0], es, s.last)
  {
    AdmissibleConcat(|s.queues|, es, [Iterate]);
    OutputsConcat(RoundRobin, s, es, [Iterate]);
    OneIteration(RoundRobin, Run(RoundRobin, s, es));
    ArrivalsOnly(RoundRobin, s, es);
    IdleFilled(RoundRobin, s, es);
    var f := Run(RoundRobin, s, es);
    assert Outputs(RoundRobin, s, es + [Iterate]) == Served(RoundRobin, f);
    hide Run, Outputs, AllArrive;
    forall c: nat | Arrivals(es, c) != [] ensures c in Backlogged(f.queues) {
      NoneBeyond(|s.queues|, es, c);
    }
  }

  lemma {:induction false} NoneBeyond(n: nat, es: seq<Event>, c: nat)
    requires Admissible(n, es) && Arrivals(es, c) != []
    ensures c < n
  {
    if !(es[0].Arrive? && es[0].class_ == c) {
      NoneBeyond(n, es[1..], c);
    }
  }
}
