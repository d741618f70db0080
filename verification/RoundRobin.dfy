/** Round robin: how long a waiting request can be kept waiting. */
module RoundRobin {
  import opened Dispatch

  /** How far class `c` lies ahead of the class served last, counting cyclically over `n`
      classes: 1 for the next class, `n` for the class just served. */
  ghost function Distance(n: nat, last: int, c: nat): nat
    requires -1 <= last < n && c < n
  {
    if last < c then c - last else n + c - last
  }

  /** Each iteration either serves `c` or brings the cursor closer to it. */
  lemma StepCloser(s: State, c: nat)
    requires WellFormed(RoundRobin, s) && c in Backlogged(s.queues)
    ensures var d := Choice(RoundRobin, s);
            d == c || Distance(|s.queues|, d, c) < Distance(|s.queues|, s.last, c)
  {
  }

  /** A request at position `k` of class `c` is served within `k` full rounds and one
      approach to `c`, whatever arrives meanwhile. */
  lemma {:induction false} ServedWithin(s: State, c: nat, k: nat, es: seq<Event>)
    requires WellFormed(RoundRobin, s) && Admissible(|s.queues|, es)
    requires c < |s.queues| && k < |s.queues[c]|
    requires Iterations(es) >= k * |s.queues| + Distance(|s.queues|, s.last, c)
    ensures |OfClass(Outputs(RoundRobin, s, es), c)| > k
    decreases |es|
  {
    var n := |s.queues|;
    assert es != [] by {
      assert k * n >= 0;
    }
    var t := Step(RoundRobin, s, es[0]);
    var first := if es[0].Iterate? then Served(RoundRobin, s) else [];
    OfClassConcat(first, Outputs(RoundRobin, t, es[1..]), c);
    if es[0].Arrive? {
      ServedWithin(t, c, k, es[1..]);
    } else {
      assert c in Backlogged(s.queues);
      StepCloser(s, c);
      assert first[1..] == [];
      if Choice(RoundRobin, s) != c {
        ServedWithin(t, c, k, es[1..]);
      } else if k > 0 {
        assert (k - 1) * n + n == k * n;
        ServedWithin(t, c, k - 1, es[1..]);
      }
    }
  }

  /** A backlogged class waits through at most `n - 1` services of other classes: among any
      `n` iterations one serves it. The request at position `k` is out after `(k + 1) * n`. */
  lemma BoundedWait(s: State, c: nat, k: nat, es: seq<Event>)
    requires WellFormed(RoundRobin, s) && Admissible(|s.queues|, es)
    requires c < |s.queues| && k < |s.queues[c]|
    requires Iterations(es) >= (k + 1) * |s.queues|
    ensures |OfClass(Outputs(RoundRobin, s, es), c)| > k
    ensures OfClass(Outputs(RoundRobin, s, es), c)[k] == s.queues[c][k]
  {
    var n := |s.queues|;
    assert (k + 1) * n == k * n + n;
    ServedWithin(s, c, k, es);
    ServedInTurn(RoundRobin, s, es, c, k);
  }
}
