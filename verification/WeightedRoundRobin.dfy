/** Weighted round robin: bursts, the bound on waiting, and the weight table. */
module WeightedRoundRobin {
  import opened Arithmetic
  import opened Dispatch

  // ---- bursts ----

  /** Services the current class has left before the eight-bit counter meets its weight. */
  ghost function Remaining(weight: nat, count: nat): (r: nat)
    requires weight < 256 && count < 256
    ensures r < 256 && (r == 0 <==> count == weight)
  {
    if count <= weight then weight - count else weight + 256 - count
  }

  /** The length of a burst begun by a rotation. Weight 0 is met only when the counter
      wraps. */
  ghost function Burst(weight: nat): nat {
    if weight == 0 then 256 else weight
  }

  /** Class `p` was served last, and another class `d` is waiting. */
  ghost predicate Contended(s: State, p: nat, d: nat) {
    s.last == p && p != d && p < |s.queues| && d < |s.queues| && s.queues[d] != []
  }

  /** Class `p` has a request whenever the loop comes round, queued from the start or just
      arrived. */
  ghost predicate Fed(w: seq<nat>, s: State, es: seq<Event>, p: nat)
    requires WellFormed(Weighted(w), s) && Admissible(|s.queues|, es) && p < |s.queues|
    decreases |es|
  {
    es == [] ||
    ((es[0].Iterate? ==> s.queues[p] != []) && Fed(w, Step(Weighted(w), s, es[0]), es[1..], p))
  }

  ghost predicate AllOf(out: seq<Service>, p: nat) {
    forall i | 0 <= i < |out| :: out[i].class_ == p
  }

  /** While the counter stays off the weight, a contended class that is kept fed keeps the
      server. */
  lemma {:induction false} KeepsServer(w: seq<nat>, s: State, p: nat, d: nat, es: seq<Event>)
    requires WellFormed(Weighted(w), s) && Admissible(|s.queues|, es)
    requires Contended(s, p, d) && Fed(w, s, es, p)
    requires w[p] < 256 ==> Iterations(es) <= Remaining(w[p], s.count)
    ensures var out := Outputs(Weighted(w), s, es); |out| == Iterations(es) && AllOf(out, p)
    ensures var t := Run(Weighted(w), s, es);
            && Contended(t, p, d)
            && (w[p] < 256 ==> Remaining(w[p], t.count) == Remaining(w[p], s.count) - Iterations(es))
    decreases |es|
  {
    if es != [] {
      var m := Weighted(w);
      var t := Step(m, s, es[0]);
      if es[0].Iterate? {
        assert {p, d} <= Backlogged(s.queues);
        assert s.count != w[p];
        assert !Rotates(w, s) && Choice(m, s) == p;
      }
      KeepsServer(w, t, p, d, es[1..]);
    }
  }

  /** The exact burst: a contended class that is kept fed gets the remaining count of services
      and then the server moves on. */
  lemma BurstIsExact(w: seq<nat>, s: State, p: nat, d: nat, es: seq<Event>)
    requires WellFormed(Weighted(w), s) && Admissible(|s.queues|, es)
    requires Contended(s, p, d) && Fed(w, s, es, p)
    requires w[p] < 256 && Iterations(es) == Remaining(w[p], s.count)
    ensures var out := Outputs(Weighted(w), s, es); |out| == Iterations(es) && AllOf(out, p)
    ensures var t := Run(Weighted(w), s, es);
            Backlogged(t.queues) != {} && Choice(Weighted(w), t) != p
  {
    KeepsServer(w, s, p, d, es);
    MovesOn(w, Run(Weighted(w), s, es), p, d);
  }

  /** The services of a class chosen anew, while another waits: its weight after a rotation, which
      clears the counter, and otherwise what the counter leaves. */
  ghost function NewBurst(w: seq<nat>, s: State, p: nat): nat
    requires WellFormed(Weighted(w), s) && p < |w| && w[p] < 256
  {
    if Rotates(w, s) then Burst(w[p]) else 1 + Remaining(w[p], (s.count + 1) % 256)
  }

  /** Exactly so many: a class that the server turns to, and that is kept fed while another waits,
      gets its whole burst, and then the server moves on. */
  lemma NewBurstIsExact(w: seq<nat>, s: State, p: nat, d: nat, es: seq<Event>)
    requires WellFormed(Weighted(w), s) && Admissible(|s.queues|, es)
    requires p < |w| && w[p] < 256 && d != p && d in Backlogged(s.queues)
    requires (s.last == -1 || Rotates(w, s)) && Choice(Weighted(w), s) == p
    requires es != [] && es[0].Iterate? && Fed(w, s, es, p)
    requires Iterations(es) == NewBurst(w, s, p)
    ensures var out := Outputs(Weighted(w), s, es); |out| == Iterations(es) && AllOf(out, p)
    ensures var t := Run(Weighted(w), s, es);
            Backlogged(t.queues) != {} && Choice(Weighted(w), t) != p
  {
    var m := Weighted(w);
    BurstIsExact(w, Step(m, s, es[0]), p, d, es[1..]);
  }

  /** So after a rotation a class gets exactly its weight. */
  lemma RotatedBurstIsExact(w: seq<nat>, s: State, p: nat, d: nat, es: seq<Event>)
    requires WellFormed(Weighted(w), s) && Admissible(|s.queues|, es)
    requires p < |w| && 0 < w[p] < 256 && d != p && d in Backlogged(s.queues)
    requires Rotates(w, s) && Choice(Weighted(w), s) == p
    requires es != [] && es[0].Iterate? && Fed(w, s, es, p) && Iterations(es) == w[p]
    ensures var out := Outputs(Weighted(w), s, es); |out| == w[p] && AllOf(out, p)
    ensures var t := Run(Weighted(w), s, es);
            Backlogged(t.queues) != {} && Choice(Weighted(w), t) != p
  {
    NewBurstIsExact(w, s, p, d, es);
  }

  /** With nothing waiting in `s` the loop comes round, and then requests arrive, which leads to
      `f`: some in `p`, the least class that gets any, and some in `d`. */
  ghost predicate Refilled(w: seq<nat>, s: State, fill: seq<Event>, f: State, p: nat, d: nat) {
    && WellFormed(Weighted(w), s) && WellFormed(Weighted(w), f) && p < d < |w|
    && Backlogged(s.queues) == {} && AllArrive(fill)
    && Admissible(|s.queues|, [Iterate] + fill) && f == Run(Weighted(w), s, [Iterate] + fill)
    && Arrivals(fill, p) != [] && Arrivals(fill, d) != []
    && forall c | 0 <= c < p :: Arrivals(fill, c) == []
  }

  lemma RefilledIs(w: seq<nat>, s: State, fill: seq<Event>, f: State, p: nat, d: nat)
    requires Refilled(w, s, fill, f, p, d)
    ensures WellFormed(Weighted(w), f) && |f.queues| == |w| && p < d < |w|
    ensures f.last == -1 && f.count == s.count
    ensures f.queues[p] != [] && f.queues[d] != [] && forall c | 0 <= c < p :: f.queues[c] == []
  {
    AdmissibleConcat(|s.queues|, [Iterate], fill);
    AfterIdle(Weighted(w), s, fill);
    hide Run, Outputs, Arrivals, Admissible, AllArrive, Backlogged;
  }

  /** An idle iteration forgets the class but not the counter: the least class that then gets
      requests is served until the counter, going on from where it was, meets its weight. */
  lemma BurstAfterIdle(w: seq<nat>, s: State, fill: seq<Event>, f: State, p: nat, d: nat, es: seq<Event>)
    requires Refilled(w, s, fill, f, p, d) && w[p] < 256 && Admissible(|f.queues|, es)
    requires es != [] && es[0].Iterate? && Fed(w, f, es, p)
    requires Iterations(es) == 1 + Remaining(w[p], (s.count + 1) % 256)
    ensures var out := Outputs(Weighted(w), f, es); |out| == Iterations(es) && AllOf(out, p)
    ensures var t := Run(Weighted(w), f, es);
            Backlogged(t.queues) != {} && Choice(Weighted(w), t) != p
  {
    RefilledIs(w, s, fill, f, p, d);
    hide *;
    FirstBurst(w, f, p, d, es);
  }

  lemma FirstBurst(w: seq<nat>, f: State, p: nat, d: nat, es: seq<Event>)
    requires WellFormed(Weighted(w), f) && Admissible(|f.queues|, es) && f.last == -1
    requires p < d < |w| && w[p] < 256 && f.queues[p] != [] && f.queues[d] != []
    requires forall c | 0 <= c < p :: f.queues[c] == []
    requires es != [] && es[0].Iterate? && Fed(w, f, es, p)
    requires Iterations(es) == 1 + Remaining(w[p], (f.count + 1) % 256)
    ensures var out := Outputs(Weighted(w), f, es); |out| == Iterations(es) && AllOf(out, p)
    ensures var t := Run(Weighted(w), f, es);
            Backlogged(t.queues) != {} && Choice(Weighted(w), t) != p
  {
    LeastWaits(f.queues, p);
    assert d in Backlogged(f.queues);
    hide Fed, AllOf, Remaining, Run, Outputs, Iterations;
    NewBurstIsExact(w, f, p, d, es);
  }

  lemma LeastWaits(qs: Queues, p: nat)
    requires p < |qs| && qs[p] != [] && forall c | 0 <= c < p :: qs[c] == []
    ensures p in Backlogged(qs) && forall c | c in Backlogged(qs) :: p <= c
  {
  }

  lemma MovesOn(w: seq<nat>, t: State, p: nat, d: nat)
    requires WellFormed(Weighted(w), t) && p != d && p < |w| && d < |w|
    requires t.last == p && t.queues[d] != [] && (t.count == w[p] || t.queues[p] == [])
    ensures Backlogged(t.queues) != {} && Choice(Weighted(w), t) != p
  {
    assert d in Backlogged(t.queues);
    assert Rotates(w, t);
  }

  /** However it is fed, a class serves no more than the remaining count while another waits. */
  lemma {:induction false} BurstBound(w: seq<nat>, s: State, p: nat, d: nat, es: seq<Event>)
    requires WellFormed(Weighted(w), s) && Admissible(|s.queues|, es) && Contended(s, p, d)
    requires w[p] < 256 && AllOf(Outputs(Weighted(w), s, es), p)
    ensures Iterations(es) <= Remaining(w[p], s.count)
    decreases |es|
  {
    if es != [] {
      var m := Weighted(w);
      var t := Step(m, s, es[0]);
      if es[0].Iterate? {
        assert d in Backlogged(s.queues);
        FirstOutput(m, s, es, p);
        if s.count == w[p] || s.queues[p] == [] {
          MovesOn(w, s, p, d);
        }
      }
      RestOfOutput(m, s, es, p);
      BurstBound(w, t, p, d, es[1..]);
    }
  }

  lemma FirstOutput(m: Mode, s: State, es: seq<Event>, p: nat)
    requires WellFormed(m, s) && Admissible(|s.queues|, es) && AllOf(Outputs(m, s, es), p)
    requires es != [] && es[0].Iterate? && Backlogged(s.queues) != {}
    ensures Choice(m, s) == p
  {
    assert Outputs(m, s, es)[0] == Served(m, s)[0];
  }

  lemma RestOfOutput(m: Mode, s: State, es: seq<Event>, p: nat)
    requires WellFormed(m, s) && Admissible(|s.queues|, es) && AllOf(Outputs(m, s, es), p) && es != []
    ensures AllOf(Outputs(m, Step(m, s, es[0]), es[1..]), p)
  {
    hide Step, Served, WellFormed;
    var first := if es[0].Iterate? then Served(m, s) else [];
    AllOfSuffix(first, Outputs(m, Step(m, s, es[0]), es[1..]), p);
  }

  lemma AllOfSuffix(a: seq<Service>, b: seq<Service>, p: nat)
    requires AllOf(a + b, p)
    ensures AllOf(b, p)
  {
    forall i | 0 <= i < |b| ensures b[i].class_ == p {
      assert b[i] == (a + b)[|a| + i];
    }
  }

  /** Any burst, however it begins: at most 256 services of a class while another waits. */
  lemma {:induction false} AnyBurst(w: seq<nat>, s: State, p: nat, d: nat, es: seq<Event>)
    requires WellFormed(Weighted(w), s) && Admissible(|s.queues|, es)
    requires p < |w| && w[p] < 256 && d < |w| && d != p && s.queues[d] != []
    requires AllOf(Outputs(Weighted(w), s, es), p)
    ensures Iterations(es) <= 256
    ensures es != [] && es[0].Iterate? && Rotates(w, s) ==> Iterations(es) <= Burst(w[p])
    decreases |es|
  {
    if es != [] {
      var m := Weighted(w);
      var t := Step(m, s, es[0]);
      RestOfOutput(m, s, es, p);
      if es[0].Arrive? {
        AnyBurst(w, t, p, d, es[1..]);
      } else {
        assert d in Backlogged(s.queues);
        FirstOutput(m, s, es, p);
        BurstBound(w, t, p, d, es[1..]);
      }
    }
  }

  /** A burst begun by a rotation is no longer than the weight. */
  lemma RotatedBurst(w: seq<nat>, s: State, p: nat, d: nat, es: seq<Event>)
    requires WellFormed(Weighted(w), s) && Admissible(|s.queues|, es)
    requires p < |w| && 0 < w[p] < 256 && d < |w| && d != p && s.queues[d] != []
    requires es != [] && es[0].Iterate? && Rotates(w, s)
    requires AllOf(Outputs(Weighted(w), s, es), p)
    ensures Iterations(es) <= w[p]
  {
    AnyBurst(w, s, p, d, es);
  }

  // ---- runs from the start ----

  /** `k` times a request of class `p` arrives and the loop comes round. */
  ghost function Feeding(p: nat, r: RecvReq, k: nat): (es: seq<Event>)
    ensures |es| == 2 * k && forall i | 0 <= i < |es| :: es[i] == Arrive(p, r) || es[i] == Iterate
  {
    if k == 0 then [] else [Arrive(p, r), Iterate] + Feeding(p, r, k - 1)
  }

  lemma {:induction false} FeedingIterates(p: nat, r: RecvReq, k: nat)
    ensures Iterations(Feeding(p, r, k)) == k
  {
    if k > 0 {
      FeedingIterates(p, r, k - 1);
      var es := Feeding(p, r, k);
      assert es[1..] == [Iterate] + Feeding(p, r, k - 1) && es[1..][1..] == Feeding(p, r, k - 1);
    }
  }

  /** One arrival of `p`, and the server that is at `p` serves it. */
  lemma FeedOne(w: seq<nat>, s: State, p: nat, r: RecvReq)
    requires WellFormed(Weighted(w), s) && p < |s.queues| && s.queues[p] == []
    requires Backlogged(File(s, p, r).queues) != {} && Choice(Weighted(w), File(s, p, r)) == p
    ensures var t := Step(Weighted(w), Step(Weighted(w), s, Arrive(p, r)), Iterate);
            && t.queues == s.queues && t.last == p
            && t.count == Counted(Weighted(w), File(s, p, r))
    ensures Served(Weighted(w), File(s, p, r)) == [Service(p, r)]
  {
    var f := File(s, p, r);
    assert f.queues[p] == [r] && p in Backlogged(f.queues);
    assert [r][1..] == [];
    assert f.queues[p := []] == s.queues;
  }

  /** A contended class is kept fed by one arrival a service for as long as the counter stays
      off its weight. */
  lemma {:induction false} FeedingKeeps(w: seq<nat>, s: State, p: nat, d: nat, r: RecvReq, k: nat)
    requires WellFormed(Weighted(w), s) && Contended(s, p, d) && s.queues[p] == []
    requires w[p] < 256 ==> k <= Remaining(w[p], s.count)
    ensures Admissible(|s.queues|, Feeding(p, r, k)) && Fed(w, s, Feeding(p, r, k), p)
    decreases k
  {
    if k > 0 {
      var m := Weighted(w);
      var es := Feeding(p, r, k);
      var f := File(s, p, r);
      assert {p, d} <= Backlogged(f.queues);
      assert !Rotates(w, f) && Choice(m, f) == p;
      FeedOne(w, s, p, r);
      assert es[1..] == [Iterate] + Feeding(p, r, k - 1) && es[1..][1..] == Feeding(p, r, k - 1);
      FeedingKeeps(w, Step(m, f, Iterate), p, d, r, k - 1);
    }
  }

  /** With no other class waiting the server stays at `p`, and the counter runs on. */
  lemma {:induction false} FeedingAlone(w: seq<nat>, s: State, p: nat, r: RecvReq, k: nat)
    requires WellFormed(Weighted(w), s) && p < |s.queues| && (s.last == -1 || s.last == p)
    requires Backlogged(s.queues) == {} && s.count + k <= 256
    ensures Admissible(|s.queues|, Feeding(p, r, k))
    ensures Run(Weighted(w), s, Feeding(p, r, k))
         == State(s.queues, if k == 0 then s.last else p, if s.count + k == 256 then 0 else s.count + k)
    decreases k
  {
    if k > 0 {
      var m := Weighted(w);
      var es := Feeding(p, r, k);
      var f := File(s, p, r);
      assert p !in Backlogged(s.queues);
      OnlyOneWaits(s, p, r);
      FeedOne(w, s, p, r);
      assert es[1..] == [Iterate] + Feeding(p, r, k - 1) && es[1..][1..] == Feeding(p, r, k - 1);
      var t := Step(m, f, Iterate);
      assert Counted(m, f) == Increment(s.count);
      assert t == State(s.queues, p, Increment(s.count));
      assert Run(m, s, es) == Run(m, t, Feeding(p, r, k - 1));
      if k == 1 {
        assert Run(m, t, []) == t;
      } else {
        FeedingAlone(w, t, p, r, k - 1);
      }
    }
  }

  lemma OnlyOneWaits(s: State, p: nat, r: RecvReq)
    requires p < |s.queues| && Backlogged(s.queues) == {}
    ensures Backlogged(File(s, p, r).queues) == {p}
  {
    var f := File(s, p, r);
    forall c | 0 <= c < |s.queues| ensures f.queues[c] != [] <==> c == p {
      assert c !in Backlogged(s.queues);
    }
  }

  /** From the start, class `p` can be made to have served `k` times, with the counter at `k`. */
  lemma CountTo(w: seq<nat>, p: nat, r: RecvReq, k: nat)
    requires p < |w| && k <= 256
    ensures Admissible(|w|, Feeding(p, r, k)) && WellFormed(Weighted(w), Empty(|w|))
    ensures Run(Weighted(w), Empty(|w|), Feeding(p, r, k))
         == State(Empty(|w|).queues, if k == 0 then -1 else p, if k == 256 then 0 else k)
  {
    assert Backlogged(Empty(|w|).queues) == {};
    FeedingAlone(w, Empty(|w|), p, r, k);
  }

  /** A run after which `p` was served last with the counter at `k`, and `d` waits. */
  lemma ReachContended(w: seq<nat>, p: nat, d: nat, r: RecvReq, k: nat) returns (pre: seq<Event>)
    requires p < |w| && d < |w| && p != d && 0 < k <= 256
    ensures Admissible(|w|, pre) && WellFormed(Weighted(w), Empty(|w|))
    ensures var s := Run(Weighted(w), Empty(|w|), pre);
            Contended(s, p, d) && s.queues[p] == [] && s.count == if k == 256 then 0 else k
  {
    var m := Weighted(w);
    CountTo(w, p, r, k);
    pre := Feeding(p, r, k) + [Arrive(d, r)];
    RunConcat(m, Empty(|w|), Feeding(p, r, k), [Arrive(d, r)]);
    assert [Arrive(d, r)][1..] == [];
  }

  /** A weight too wide for the counter is never met: the class keeps the server for as long
      as it has a request whenever the loop comes round, whoever else is waiting. */
  lemma WideWeightStarves(w: seq<nat>, s: State, p: nat, d: nat, es: seq<Event>)
    requires WellFormed(Weighted(w), s) && Admissible(|s.queues|, es)
    requires Contended(s, p, d) && w[p] >= 256 && Fed(w, s, es, p)
    ensures OfClass(Outputs(Weighted(w), s, es), d) == []
    ensures Contended(Run(Weighted(w), s, es), p, d)
  {
    KeepsServer(w, s, p, d, es);
    NoneOfClass(Outputs(Weighted(w), s, es), d);
  }

  /** From the start there is a run in which `d` waits while the loop comes round `n` times. */
  lemma StarvedRun(w: seq<nat>, p: nat, d: nat, n: nat) returns (pre: seq<Event>, es: seq<Event>)
    requires p < |w| && d < |w| && p != d && w[p] >= 256
    ensures Admissible(|w|, pre) && Admissible(|w|, es) && WellFormed(Weighted(w), Empty(|w|))
    ensures var s := Run(Weighted(w), Empty(|w|), pre);
            && s.queues[d] != [] && Iterations(es) == n
            && OfClass(Outputs(Weighted(w), s, es), d) == []
  {
    var r := RecvReq(0, 0);
    pre := ReachContended(w, p, d, r, 1);
    es := Feeding(p, r, n);
    var s := Run(Weighted(w), Empty(|w|), pre);
    FeedingKeeps(w, s, p, d, r, n);
    FeedingIterates(p, r, n);
    WideWeightStarves(w, s, p, d, es);
  }

  /** A burst can run past its weight: `p` alone takes the counter beyond it, then `d` arrives
      and waits through 255 services of `p`. */
  lemma BurstPastWeight(w: seq<nat>, p: nat, d: nat) returns (pre: seq<Event>, es: seq<Event>)
    requires p < |w| && d < |w| && p != d && w[p] < 256
    ensures Admissible(|w|, pre) && Admissible(|w|, es) && WellFormed(Weighted(w), Empty(|w|))
    ensures var s := Run(Weighted(w), Empty(|w|), pre);
            && Contended(s, p, d) && Iterations(es) == 255
            && |Outputs(Weighted(w), s, es)| == 255 && AllOf(Outputs(Weighted(w), s, es), p)
  {
    var r := RecvReq(0, 0);
    pre := ReachContended(w, p, d, r, w[p] + 1);
    es := Feeding(p, r, 255);
    var s := Run(Weighted(w), Empty(|w|), pre);
    assert Remaining(w[p], s.count) == 255;
    FeedingKeeps(w, s, p, d, r, 255);
    FeedingIterates(p, r, 255);
    KeepsServer(w, s, p, d, es);
  }

  /** The services that a contended class has left are at most its weight, in every run from the
      start, exactly for weight 255: any smaller weight can be overrun, since the counter is
      cleared only by a rotation. */
  lemma BurstWithinWeightIff(w: seq<nat>, p: nat, d: nat)
    requires p < |w| && d < |w| && p != d && w[p] < 256
    ensures WellFormed(Weighted(w), Empty(|w|))
    ensures (forall pre | Admissible(|w|, pre) :: WithinWeight(w, p, d, Run(Weighted(w), Empty(|w|), pre)))
       <==> w[p] == 255
  {
    if w[p] < 255 {
      var pre := ReachContended(w, p, d, RecvReq(0, 0), w[p] + 1);
      assert !WithinWeight(w, p, d, Run(Weighted(w), Empty(|w|), pre));
    }
  }

  ghost predicate WithinWeight(w: seq<nat>, p: nat, d: nat, s: State)
    requires WellFormed(Weighted(w), s) && p < |w| && w[p] < 256
  {
    Contended(s, p, d) ==> Remaining(w[p], s.count) <= w[p]
  }

  // ---- waiting ----

  ghost function SumBursts(w: seq<nat>, lo: nat, hi: nat): nat
    requires hi <= |w|
    decreases hi - lo
  {
    if lo >= hi then 0 else Burst(w[lo]) + SumBursts(w, lo + 1, hi)
  }

  lemma {:induction false} SumSplits(w: seq<nat>, lo: nat, mid: nat, hi: nat)
    requires lo <= mid <= hi <= |w|
    ensures SumBursts(w, lo, hi) == SumBursts(w, lo, mid) + SumBursts(w, mid, hi)
    decreases mid - lo
  {
    if lo < mid {
      SumSplits(w, lo + 1, mid, hi);
    }
  }

  /** The bursts of the classes met before `c` when the server leaves `last`. */
  ghost function Ahead(w: seq<nat>, last: int, c: nat): nat
    requires -1 <= last < |w| && c < |w|
  {
    if last < c then SumBursts(w, last + 1, c)
    else SumBursts(w, last + 1, |w|) + SumBursts(w, 0, c)
  }

  /** The sum of the other classes' bursts. */
  ghost function Others(w: seq<nat>, c: nat): nat
    requires c < |w|
  {
    SumBursts(w, c + 1, |w|) + SumBursts(w, 0, c)
  }

  ghost predicate Narrow(w: seq<nat>) {
    forall i | 0 <= i < |w| :: w[i] < 256
  }

  /** How many services of other classes can still come before the next one of `c`. */
  ghost function Patience(w: seq<nat>, s: State, c: nat): nat
    requires WellFormed(Weighted(w), s) && c < |w| && Narrow(w)
  {
    if s.last == -1 then 256 + SumBursts(w, 0, c)
    else if s.last == c then Others(w, c)
    else Remaining(w[s.last], s.count) + Ahead(w, s.last, c)
  }

  /** Moving from `p` to a class `q` met before `c` uses up at least the burst of `q`. */
  lemma AheadSplits(w: seq<nat>, p: int, q: nat, c: nat)
    requires -1 <= p < |w| && q < |w| && c < |w| && q != c
    requires if p < c then p < q < c else p < q || q < c
    ensures Ahead(w, p, c) >= Burst(w[q]) + Ahead(w, q, c)
  {
    if p < c {
      SumSplits(w, p + 1, q, c);
    } else if p < q {
      SumSplits(w, p + 1, q, |w|);
    } else {
      SumSplits(w, 0, q, c);
    }
  }

  /** Each iteration serves `c` or uses up patience. */
  lemma StepUsesPatience(w: seq<nat>, s: State, c: nat)
    requires WellFormed(Weighted(w), s) && Narrow(w) && c in Backlogged(s.queues)
    ensures Choice(Weighted(w), s) == c
         || Patience(w, Serve(Weighted(w), s), c) < Patience(w, s, c)
  {
    var m := Weighted(w);
    var q := Choice(m, s);
    assert q in Backlogged(s.queues);
    if q != c {
      if s.last == -1 || Rotates(w, s) {
        AheadSplits(w, s.last, q, c);
        assert Remaining(w[q], 1) == Burst(w[q]) - 1;
      } else {
        assert s.count != w[q];
        assert Remaining(w[q], Increment(s.count)) == Remaining(w[q], s.count) - 1;
      }
    }
  }

  lemma {:induction false} ServedWithin(w: seq<nat>, s: State, c: nat, k: nat, es: seq<Event>)
    requires WellFormed(Weighted(w), s) && Admissible(|s.queues|, es) && Narrow(w)
    requires c < |s.queues| && k < |s.queues[c]|
    requires Iterations(es) > Rounds(k, Others(w, c) + 1) + Patience(w, s, c)
    ensures |OfClass(Outputs(Weighted(w), s, es), c)| > k
    decreases |es|
  {
    var m := Weighted(w);
    var t := Step(m, s, es[0]);
    var first := if es[0].Iterate? then Served(m, s) else [];
    OfClassConcat(first, Outputs(m, t, es[1..]), c);
    if es[0].Arrive? {
      ServedWithin(w, t, c, k, es[1..]);
    } else {
      assert c in Backlogged(s.queues);
      StepUsesPatience(w, s, c);
      assert first[1..] == [];
      if Choice(m, s) != c {
        ServedWithin(w, t, c, k, es[1..]);
      } else if k > 0 {
        ServedWithin(w, t, c, k - 1, es[1..]);
      }
    }
  }

  /** With weights that fit the counter, a backlogged class waits through at most 256 plus
      the other classes' bursts; the request at position `k` is out after `k` further rounds. */
  lemma BoundedWait(w: seq<nat>, s: State, c: nat, k: nat, es: seq<Event>)
    requires WellFormed(Weighted(w), s) && Admissible(|s.queues|, es) && Narrow(w)
    requires c < |s.queues| && k < |s.queues[c]|
    requires Iterations(es) > k * (Others(w, c) + 1) + 256 + Others(w, c)
    ensures |OfClass(Outputs(Weighted(w), s, es), c)| > k
    ensures OfClass(Outputs(Weighted(w), s, es), c)[k] == s.queues[c][k]
  {
    if s.last != -1 && s.last < c {
      SumSplits(w, 0, s.last + 1, c);
    } else if c < s.last {
      SumSplits(w, c + 1, s.last + 1, |w|);
    }
    RoundsIsProduct(k, Others(w, c) + 1);
    ServedWithin(w, s, c, k, es);
    ServedInTurn(Weighted(w), s, es, c, k);
  }

  /** In some number of iterations class `c` is served, whatever the run has been and whatever
      arrives, provided it is waiting. */
  ghost predicate WaitBounded(w: seq<nat>, c: nat)
    requires c < |w|
  {
    exists b: nat :: ServedIn(w, c, b)
  }

  ghost predicate ServedIn(w: seq<nat>, c: nat, b: nat)
    requires c < |w|
  {
    WellFormed(Weighted(w), Empty(|w|)) &&
    forall pre, es | Admissible(|w|, pre) && Admissible(|w|, es) ::
      var s := Run(Weighted(w), Empty(|w|), pre);
      s.queues[c] != [] && Iterations(es) >= b ==> OfClass(Outputs(Weighted(w), s, es), c) != []
  }

  /** Every class's wait is bounded over all runs exactly when every weight fits the counter. */
  lemma WaitsBoundedIff(w: seq<nat>)
    requires |w| >= 2
    ensures (forall c | 0 <= c < |w| :: WaitBounded(w, c)) <==> Narrow(w)
  {
    if Narrow(w) {
      forall c | 0 <= c < |w| ensures WaitBounded(w, c) {
        var b := 257 + Others(w, c);
        forall pre, es | Admissible(|w|, pre) && Admissible(|w|, es)
          ensures var s := Run(Weighted(w), Empty(|w|), pre);
                  s.queues[c] != [] && Iterations(es) >= b ==> OfClass(Outputs(Weighted(w), s, es), c) != [] {
          var s := Run(Weighted(w), Empty(|w|), pre);
          if s.queues[c] != [] && Iterations(es) >= b {
            BoundedWait(w, s, c, 0, es);
          }
        }
        assert ServedIn(w, c, b);
      }
    } else {
      var p :| 0 <= p < |w| && w[p] >= 256;
      var d := if p == 0 then 1 else 0;
      forall b: nat ensures !ServedIn(w, d, b) {
        var pre, es := StarvedRun(w, p, d, b);
      }
      assert !WaitBounded(w, d);
    }
  }

  // ---- the weight table ----

  /** Weight of class `z` of `n`: one less for every tenth of the classes, in sixteen bits. */
  ghost function TableWeight(n: nat, z: nat): nat
    requires n >= 10
  {
    (10 - z / (n / 10)) % 0x1_0000
  }

  lemma NextWeight(n: nat, z: nat)
    requires n >= 10
    ensures TableWeight(n, z + 1)
         == if z % (n / 10) == n / 10 - 1 then (TableWeight(n, z) - 1) % 0x1_0000
            else TableWeight(n, z)
  {
    DivSucc(z, n / 10);
    Mod16Pred(10 - z / (n / 10));
  }

  lemma Mod16Pred(x: int)
    ensures (x - 1) % 0x1_0000 == (x % 0x1_0000 - 1) % 0x1_0000
  {
  }

  /** The table is filled with one running weight. Fewer than ten classes would divide by
      zero. */
  method WeightTable(n: nat) returns (queueWeights: array<nat>)
    requires n >= 10
    ensures fresh(queueWeights) && queueWeights.Length == n
    ensures forall z | 0 <= z < n :: queueWeights[z] == TableWeight(n, z)
    ensures forall i, z | 0 <= i < 10 && 0 <= z < n && InTenth(n, i, z) :: queueWeights[z] == 10 - i
  {
    hide TableWeight;
    queueWeights := new nat[n];
    var tempWeight := 10;
    FirstWeight(n);
    var z := 0;
    while z < n
      invariant 0 <= z <= n
      invariant tempWeight == TableWeight(n, z)
      invariant forall y | 0 <= y < z :: queueWeights[y] == TableWeight(n, y)
    {
      queueWeights[z] := tempWeight;
      NextWeight(n, z);
      if z % (n / 10) == n / 10 - 1 {
        tempWeight := (tempWeight - 1) % 0x1_0000;
      }
      z := z + 1;
    }
    forall i, y | 0 <= i < 10 && 0 <= y < n && InTenth(n, i, y) ensures TableWeight(n, y) == 10 - i {
      WeightOfTenth(n, i, y);
    }
  }

  /** Class `y` lies in tenth `i` of the classes. */
  ghost predicate InTenth(n: nat, i: int, y: int) {
    i * (n / 10) <= y < i * (n / 10) + n / 10
  }

  lemma WeightOfTenth(n: nat, i: nat, y: nat)
    requires n >= 10 && i < 10 && InTenth(n, i, y)
    ensures TableWeight(n, y) == 10 - i
  {
    DivUnique(y, n / 10, i, y - i * (n / 10));
  }

  lemma FirstWeight(n: nat)
    requires n >= 10
    ensures TableWeight(n, 0) == 10
  {
    DivUnique(0, n / 10, 0, 0);
  }

  /** Every weight is between 1 and 10 exactly when the number of classes is a multiple of
      ten. Otherwise class `10 * (n / 10)` has weight 0, that is a burst of 256. */
  lemma TableInRangeIff(n: nat, w: seq<nat>)
    requires n >= 10 && |w| == n
    requires forall z | 0 <= z < n :: w[z] == TableWeight(n, z)
    ensures (forall z | 0 <= z < n :: 1 <= w[z] <= 10) <==> n % 10 == 0
    ensures n % 10 != 0 ==> w[10 * (n / 10)] == 0
  {
    var tenth := n / 10;
    if n % 10 == 0 {
      forall z | 0 <= z < n ensures 1 <= w[z] <= 10 {
        assert z == (z / tenth) * tenth + z % tenth;
        MulMono(10, z / tenth, tenth);
      }
    } else {
      DivUnique(10 * tenth, tenth, 10, 0);
      assert w[10 * tenth] == 0;
    }
  }

  /** The program's own table fits the counter exactly when the classes beyond a multiple of
      ten are no more than a tenth; otherwise the last class has weight 0xFFFF. */
  lemma TableNarrowIff(n: nat, w: seq<nat>)
    requires n >= 10 && |w| == n
    requires forall z | 0 <= z < n :: w[z] == TableWeight(n, z)
    ensures Narrow(w) <==> n % 10 <= n / 10
  {
    hide TableWeight;
    var tenth := n / 10;
    if n % 10 <= tenth {
      forall z | 0 <= z < n ensures w[z] < 256 {
        TenthOf(n, z);
        WeightAt(n, z);
      }
    } else {
      DivUnique(11 * tenth, tenth, 11, 0);
      WeightAt(n, 11 * tenth);
      assert w[11 * tenth] == 0xFFFF;
    }
  }

  lemma TenthOf(n: nat, z: nat)
    requires n >= 10 && z < n && n % 10 <= n / 10
    ensures z / (n / 10) <= 10
  {
    var tenth := n / 10;
    assert z == (z / tenth) * tenth + z % tenth;
    MulMono(11, z / tenth, tenth);
  }

  lemma WeightAt(n: nat, z: nat)
    requires n >= 10
    ensures z / (n / 10) <= 10 ==> TableWeight(n, z) <= 10
    ensures z / (n / 10) == 11 ==> TableWeight(n, z) == 0xFFFF
  {
  }

  /** So with that table every class's wait is bounded exactly for those numbers of classes. */
  lemma TableBoundsWaitsIff(n: nat, w: seq<nat>)
    requires n >= 10 && |w| == n
    requires forall z | 0 <= z < n :: w[z] == TableWeight(n, z)
    ensures (forall c | 0 <= c < n :: WaitBounded(w, c)) <==> n % 10 <= n / 10
  {
    WaitsBoundedIff(w);
    TableNarrowIff(n, w);
  }
}
