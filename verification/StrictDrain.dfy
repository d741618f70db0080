/** Strict priority empties a backlog as a stable sort by class. */
module StrictDrain {
  import opened Dispatch

  ghost function Requests(c: nat, queue: seq<RecvReq>): seq<Service> {
    seq(|queue|, i requires 0 <= i < |queue| => Service(c, queue[i]))
  }

  /** The queues from class `c` on, one after the other. */
  ghost function Flatten(qs: Queues, c: nat): (out: seq<Service>)
    requires c <= |qs|
    ensures forall i | 0 <= i < |out| :: c <= out[i].class_ < |qs|
    ensures |out| == Total(qs, c)
    decreases |qs| - c
  {
    if c == |qs| then [] else Requests(c, qs[c]) + Flatten(qs, c + 1)
  }

  lemma HeadOfClass(qs: Queues, d: nat)
    requires d < |qs| && qs[d] != []
    ensures Flatten(qs, d) == [Service(d, qs[d][0])] + Flatten(qs[d := qs[d][1..]], d)
  {
    var rest := qs[d := qs[d][1..]];
    var x, tail := Service(d, qs[d][0]), Flatten(qs, d + 1);
    SameTail(qs, rest, d + 1);
    assert Requests(d, qs[d]) == [x] + Requests(d, rest[d]);
    assert ([x] + Requests(d, rest[d])) + tail == [x] + (Requests(d, rest[d]) + tail);
  }

  lemma EmptyClass(qs: Queues, c: nat)
    requires c < |qs| && qs[c] == []
    ensures Flatten(qs, c) == Flatten(qs, c + 1)
  {
    assert Requests(c, qs[c]) == [];
  }

  /** Taking from the least waiting class takes the head of the flattened queues. */
  lemma {:induction false} HeadOfFlatten(qs: Queues, c: nat, d: nat)
    requires c <= d < |qs| && qs[d] != [] && forall i | c <= i < d :: qs[i] == []
    ensures Flatten(qs, c) == [Service(d, qs[d][0])] + Flatten(qs[d := qs[d][1..]], c)
    decreases d - c
  {
    if c < d {
      EmptyClass(qs, c);
      EmptyClass(qs[d := qs[d][1..]], c);
      HeadOfFlatten(qs, c + 1, d);
    } else {
      HeadOfClass(qs, d);
    }
  }

  lemma {:induction false} SameTail(qs: Queues, rs: Queues, c: nat)
    requires |qs| == |rs| && c <= |qs| && forall i | c <= i < |qs| :: qs[i] == rs[i]
    ensures Flatten(qs, c) == Flatten(rs, c)
    decreases |qs| - c
  {
    if c < |qs| {
      SameTail(qs, rs, c + 1);
    }
  }

  ghost predicate SortedByClass(out: seq<Service>) {
    forall i, j | 0 <= i < j < |out| :: out[i].class_ <= out[j].class_
  }

  lemma {:induction false} FlattenSorted(qs: Queues, c: nat)
    requires c <= |qs|
    ensures SortedByClass(Flatten(qs, c))
    decreases |qs| - c
  {
    if c < |qs| {
      FlattenSorted(qs, c + 1);
    }
  }

  lemma {:induction false} FlattenOfClass(qs: Queues, c: nat, d: nat)
    requires c <= |qs|
    ensures OfClass(Flatten(qs, c), d) == if c <= d < |qs| then qs[d] else []
    decreases |qs| - c
  {
    if c < |qs| {
      var here, rest := Requests(c, qs[c]), Flatten(qs, c + 1);
      OfClassConcat(here, rest, d);
      RequestsOfClass(c, qs[c], d);
      FlattenOfClass(qs, c + 1, d);
      assert OfClass(here, d) + OfClass(rest, d) == if c <= d < |qs| then qs[d] else [];
    }
  }

  lemma {:induction false} RequestsOfClass(c: nat, queue: seq<RecvReq>, d: nat)
    ensures OfClass(Requests(c, queue), d) == if d == c then queue else []
  {
    if queue != [] {
      assert Requests(c, queue)[1..] == Requests(c, queue[1..]);
      RequestsOfClass(c, queue[1..], d);
    }
  }

  ghost predicate Sorts(out: seq<Service>, arrived: seq<Service>) {
    SortedByClass(out) && forall d: nat :: OfClass(out, d) == OfClass(arrived, d)
  }

  ghost function Filings(arrived: seq<Service>): (es: seq<Event>)
    ensures |es| == |arrived|
    ensures forall i | 0 <= i < |es| :: es[i] == Arrive(arrived[i].class_, arrived[i].req)
  {
    seq(|arrived|, i requires 0 <= i < |arrived| => Arrive(arrived[i].class_, arrived[i].req))
  }

  ghost predicate AllIterate(es: seq<Event>) {
    forall i | 0 <= i < |es| :: es[i].Iterate?
  }

  /** With no further arrivals, each iteration outputs the next request of the flattened
      queues, and after exactly as many iterations as requests nothing is left. */
  lemma {:induction false} DrainsInOrder(s: State, es: seq<Event>)
    requires WellFormed(Strict, s) && AllIterate(es) && |es| == Total(s.queues, 0)
    ensures Outputs(Strict, s, es) == Flatten(s.queues, 0)
    ensures Backlogged(Run(Strict, s, es).queues) == {}
    decreases |es|
  {
    NothingWaiting(s.queues, 0);
    if es != [] {
      assert es[0].Iterate?;
      var d := Choice(Strict, s);
      forall i | 0 <= i < d ensures s.queues[i] == [] {
        assert i !in Backlogged(s.queues);
      }
      HeadOfFlatten(s.queues, 0, d);
      DrainsInOrder(Step(Strict, s, es[0]), es[1..]);
    }
  }

  /** Whatever arrives first and is then drained comes out stably sorted by class, one
      request an iteration, and the drain ends after exactly that many iterations. */
  lemma DrainIsStableSort(n: nat, arrived: seq<Service>, es: seq<Event>)
    requires forall i | 0 <= i < |arrived| :: arrived[i].class_ < n
    requires AllIterate(es) && |es| == |arrived|
    ensures var s := Run(Strict, Empty(n), Filings(arrived));
            && Sorts(Outputs(Strict, s, es), arrived)
            && |Outputs(Strict, s, es)| == |es|
            && Backlogged(Run(Strict, s, es).queues) == {}
  {
    var s := Run(Strict, Empty(n), Filings(arrived));
    EmptyTotal(n, 0);
    FilingsOnly(Empty(n), arrived);
    DrainsInOrder(s, es);
    FlattenSorted(s.queues, 0);
    forall d: nat ensures OfClass(Flatten(s.queues, 0), d) == OfClass(arrived, d) {
      FlattenOfClass(s.queues, 0, d);
      BacklogOfClass(n, arrived, d);
    }
  }

  lemma {:induction false} EmptyTotal(n: nat, c: nat)
    requires c <= n
    ensures Total(Empty(n).queues, c) == 0
    decreases n - c
  {
    if c < n {
      EmptyTotal(n, c + 1);
    }
  }

  lemma BacklogOfClass(n: nat, arrived: seq<Service>, d: nat)
    requires forall i | 0 <= i < |arrived| :: arrived[i].class_ < n
    ensures var s := Run(Strict, Empty(n), Filings(arrived));
            OfClass(arrived, d) == if d < n then s.queues[d] else []
  {
    if d < n {
      FifoWithinClass(Strict, Empty(n), Filings(arrived), d);
      FilingsOnly(Empty(n), arrived);
      ArrivalsOfFilings(arrived, d);
      var s := Run(Strict, Empty(n), Filings(arrived));
      assert [] + s.queues[d] == [] + OfClass(arrived, d);
      assert [] + s.queues[d] == s.queues[d];
    } else {
      NoneOfClass(arrived, d);
    }
  }

  lemma {:induction false} FilingsOnly(s: State, arrived: seq<Service>)
    requires WellFormed(Strict, s)
    requires forall i | 0 <= i < |arrived| :: arrived[i].class_ < |s.queues|
    ensures Outputs(Strict, s, Filings(arrived)) == []
    ensures Total(Run(Strict, s, Filings(arrived)).queues, 0) == Total(s.queues, 0) + |arrived|
    decreases |arrived|
  {
    if arrived != [] {
      var es := Filings(arrived);
      assert es[1..] == Filings(arrived[1..]);
      var c := arrived[0].class_;
      TotalUpdate(s.queues, 0, c, s.queues[c] + [arrived[0].req]);
      FilingsOnly(Step(Strict, s, es[0]), arrived[1..]);
    }
  }

  lemma {:induction false} ArrivalsOfFilings(arrived: seq<Service>, d: nat)
    ensures Arrivals(Filings(arrived), d) == OfClass(arrived, d)
  {
    if arrived != [] {
      assert Filings(arrived)[1..] == Filings(arrived[1..]);
      ArrivalsOfFilings(arrived[1..], d);
    }
  }
}
