/** How deep the completion queue has to be, for any interval: send completions come closest to
    each other where `rcnt` wraps, and the fullest queue is met there. */
module EchoCompletions {
  import opened Arithmetic
  import opened Pipeline
  import opened EchoServer
  import opened EchoTightness

  /** The most signalled sends among the `bufs` sends after a signalled one. */
  ghost function Most(bufs: nat, interval: nat): nat
    requires 0 < interval < COUNTER_RANGE
  {
    if bufs < Gap(interval) then 0 else 1 + (bufs - Gap(interval)) / interval
  }

  lemma {:induction false} MarkedSplit(lo: nat, mid: nat, hi: nat, marks: iset<nat>)
    requires lo <= mid <= hi
    ensures MarkedBetween(lo, hi, marks) == MarkedBetween(lo, mid, marks) + MarkedBetween(mid, hi, marks)
    decreases mid - lo
  {
    if lo < mid {
      MarkedSplit(lo + 1, mid, hi, marks);
    }
  }

  lemma MarkedInRound(c: nat, x: nat, interval: nat)
    requires 0 < interval && x < COUNTER_RANGE
    ensures c * COUNTER_RANGE + x in Marks(interval) <==> x % interval == 0
  {
    InRound(c, x, interval);
  }

  /** Within one round of the counter the marks are the multiples of the interval. */
  lemma {:induction false} CountInRound(c: nat, x: nat, y: nat, interval: nat)
    requires 0 < interval && x <= y < COUNTER_RANGE
    ensures MarkedBetween(c * COUNTER_RANGE + x, c * COUNTER_RANGE + y, Marks(interval))
         == y / interval - x / interval
    decreases y - x
  {
    hide Marks;
    if x < y {
      CountInRound(c, x + 1, y, interval);
      MarkedInRound(c, x + 1, interval);
      DivSucc(x, interval);
      RemainderSucc(x, interval);
    }
  }

  lemma AddMultiple(x: nat, k: nat, d: nat)
    requires d > 0
    ensures (x + k * d) / d == x / d + k
  {
    assert x == (x / d) * d + x % d;
    assert (x / d + k) * d == (x / d) * d + k * d;
    DivUnique(x + k * d, d, x / d + k, x % d);
  }

  lemma QuotientMono(a: nat, b: nat, d: nat)
    requires d > 0 && a <= b
    ensures a / d <= b / d
  {
    assert a == (a / d) * d + a % d && b == (b / d) * d + b % d;
    MulMono(b / d, a / d, d);
  }

  lemma MostGrows(a: nat, b: nat, interval: nat)
    requires 0 < interval < COUNTER_RANGE && a <= b
    ensures Most(a, interval) <= Most(b, interval)
  {
    if Gap(interval) <= a {
      QuotientMono(a - Gap(interval), b - Gap(interval), interval);
    }
  }

  /** At the end of a round comes a mark, and `Gap` sends later the next round begins. */
  lemma LastMark(interval: nat) returns (k: nat)
    requires 0 < interval < COUNTER_RANGE
    ensures k * interval == COUNTER_RANGE - Gap(interval) && k == (COUNTER_RANGE - 1) / interval
  {
    var q, g := COUNTER_RANGE / interval, Gap(interval);
    assert COUNTER_RANGE == q * interval + COUNTER_RANGE % interval;
    if COUNTER_RANGE % interval == 0 {
      assert (q - 1) * interval == q * interval - interval;
      assert q >= 1 by {
        assert q == 0 ==> q * interval == 0;
      }
      k := q - 1;
    } else {
      k := q;
    }
    DivUnique(COUNTER_RANGE - 1, interval, k, g - 1);
  }

  /** Without a wrap the marks after a mark are an interval apart. */
  lemma MostWithin(m: nat, d: nat, interval: nat)
    requires 0 < interval < COUNTER_RANGE && m % interval == 0
    ensures (m + d) / interval - m / interval == d / interval <= Most(d, interval)
  {
    assert m == (m / interval) * interval;
    AddMultiple(d, m / interval, interval);
    if d >= interval {
      assert d - interval + 1 * interval == d;
      AddMultiple(d - interval, 1, interval);
      QuotientMono(d - interval, d - Gap(interval), interval);
    } else {
      DivUnique(d, interval, 0, d);
    }
  }

  /** A stretch across the wrap, measured from its mark `m`. */
  lemma AcrossSize(m: nat, d: nat, interval: nat)
    requires 0 < interval < COUNTER_RANGE && m % interval == 0
    requires m < COUNTER_RANGE <= m + d
    ensures m / interval <= (COUNTER_RANGE - 1) / interval
    ensures Most(d, interval)
         == (COUNTER_RANGE - 1) / interval - m / interval + 1 + (m + d - COUNTER_RANGE) / interval
  {
    hide Most, Gap;
    var k := LastMark(interval);
    var a := m / interval;
    assert m == a * interval;
    QuotientMono(m, COUNTER_RANGE - 1, interval);
    Difference(k, a, interval);
    MostOf(d, m + d - COUNTER_RANGE, k - a, interval);
  }

  lemma MostOf(d: nat, rest: nat, j: nat, interval: nat)
    requires 0 < interval < COUNTER_RANGE && d == Gap(interval) + rest + j * interval
    ensures Most(d, interval) == 1 + rest / interval + j
  {
    AddMultiple(rest, j, interval);
  }

  lemma Difference(a: nat, b: nat, d: nat)
    requires b <= a
    ensures (a - b) * d == a * d - b * d
  {
  }

  /** Across the wrap they are, but for the last before it. */
  lemma MostAcross(c: nat, m: nat, d: nat, interval: nat)
    requires 0 < interval < COUNTER_RANGE && m % interval == 0
    requires m < COUNTER_RANGE <= m + d && d < COUNTER_RANGE
    ensures MarkedBetween(c * COUNTER_RANGE + m, c * COUNTER_RANGE + m + d, Marks(interval)) == Most(d, interval)
  {
    hide Marks, Most;
    var base, next: nat := c * COUNTER_RANGE, (c + 1) * COUNTER_RANGE;
    var rest := m + d - COUNTER_RANGE;
    AcrossSize(m, d, interval);
    CountInRound(c, m, COUNTER_RANGE - 1, interval);
    CountInRound(c + 1, 0, rest, interval);
    DivUnique(0, interval, 0, 0);
    MarkedInRound(c + 1, 0, interval);
    OneMark(next - 1, Marks(interval));
    hide MarkedBetween;
    MarkedSplit(base + m, next - 1, base + m + d, Marks(interval));
    MarkedSplit(next - 1, next, next + rest, Marks(interval));
  }

  lemma OneMark(n: nat, marks: iset<nat>)
    requires n + 1 in marks
    ensures MarkedBetween(n, n + 1, marks) == 1
  {
    assert MarkedBetween(n + 1, n + 1, marks) == 0;
  }

  /** After a marked send no `bufs` sends hold more marks than those across the wrap. */
  lemma MostMarks(n: nat, hi: nat, bufs: nat, interval: nat)
    requires 0 < interval && interval + bufs < COUNTER_RANGE
    requires n in Marks(interval) && n <= hi <= n + bufs
    ensures MarkedBetween(n, hi, Marks(interval)) <= Most(bufs, interval)
  {
    var c, m, d := n / COUNTER_RANGE, n % COUNTER_RANGE, hi - n;
    assert n == c * COUNTER_RANGE + m;
    assert m % interval == 0;
    hide Marks;
    if m + d < COUNTER_RANGE {
      CountInRound(c, m, m + d, interval);
      MostWithin(m, d, interval);
    } else {
      MostAcross(c, m, d, interval);
    }
    hide Most;
    MostGrows(d, bufs, interval);
  }

  lemma {:induction false} NoMoreThanMarked(pipe: seq<Wc>, lo: nat, hi: nat, marks: iset<nat>)
    requires lo <= hi && Ascending(pipe, lo, hi, marks)
    ensures Sends(pipe) <= MarkedBetween(lo, hi, marks)
  {
    hide MarkedBetween;
    if pipe != [] {
      if pipe[0].SendWc? {
        var n := pipe[0].number;
        NoMoreThanMarked(pipe[1..], n, hi, marks);
        MarkedSplit(lo, n - 1, hi, marks);
        MarkedSplit(n - 1, n, hi, marks);
        OneMark(n - 1, marks);
      } else {
        NoMoreThanMarked(pipe[1..], lo, hi, marks);
      }
    }
  }

  /** The first send completion in the queue is at most `bufs` sends old. */
  lemma {:induction false} FewestSends(pipe: seq<Wc>, due: nat, bufs: nat, lo: nat, hi: nat, interval: nat)
    requires 0 < interval && interval + bufs < COUNTER_RANGE && lo <= hi <= due
    requires OnTime(pipe, due, bufs) && Ascending(pipe, lo, hi, Marks(interval))
    ensures Sends(pipe) <= 1 + Most(bufs, interval)
  {
    hide Marks, Most;
    if pipe != [] {
      if pipe[0].SendWc? {
        NoMoreThanMarked(pipe[1..], pipe[0].number, hi, Marks(interval));
        MostMarks(pipe[0].number, hi, bufs, interval);
      } else {
        FewestSends(pipe[1..], due + 1, bufs, lo, hi, interval);
      }
    }
  }

  lemma CompletionsFit(order: Order, block: set<nat>, s: Conn, interval: nat)
    requires 0 < interval && interval + |block| < COUNTER_RANGE && Reachable(order, block, s, Marks(interval))
    ensures |s.cq| <= |block| + 1 + Most(|block|, interval)
  {
    ReachableInv(order, block, s, Marks(interval));
    hide Reachable, Marks, Most;
    OnTimeConcat(s.batch, s.cq, Handled(s), |block|);
    FewestSends(s.cq, Handled(s) + Receives(s.batch), |block|, s.reclaimed, Sent(s), interval);
    ReceivesInCq(s, block, Marks(interval));
    CountsAll(s.cq);
  }

  /** The last signalled send before the wrap. */
  lemma BeforeTheWrap(interval: nat, bufs: nat) returns (n: nat)
    requires 0 < interval && interval + bufs < COUNTER_RANGE
    ensures n > 0 && n in Marks(interval)
    ensures MarkedBetween(n, n + bufs, Marks(interval)) == Most(bufs, interval)
  {
    var k := LastMark(interval);
    n := COUNTER_RANGE - Gap(interval);
    DivUnique(n, interval, k, 0);
    MarkedInRound(0, n, interval);
    hide Marks;
    if bufs < Gap(interval) {
      CountInRound(0, n, n + bufs, interval);
      MostWithin(n, bufs, interval);
    } else {
      MostAcross(0, n, bufs, interval);
    }
  }

  lemma MostIfEven(bufs: nat, interval: nat)
    requires 0 < interval < COUNTER_RANGE && COUNTER_RANGE % interval == 0
    ensures Most(bufs, interval) == bufs / interval
  {
    if bufs < interval {
      DivUnique(bufs, interval, 0, bufs);
    } else {
      AddMultiple(bufs - interval, 1, interval);
    }
  }

  /** A completion queue of the given depth suffices in every reachable state exactly when it holds
      every buffer, a send completion, and those of the most signalled sends that `buffers` sends
      can hold. Where the interval divides the counter's range that is one for every interval. */
  lemma CompletionQueueFitsIff(order: Order, block: set<nat>, interval: nat, depth: nat)
    requires block != {} && 0 < interval && interval + |block| < COUNTER_RANGE
    ensures (forall s | Reachable(order, block, s, Marks(interval)) :: |s.cq| <= depth)
       <==> |block| + 1 + Most(|block|, interval) <= depth
    ensures COUNTER_RANGE % interval == 0 ==> Most(|block|, interval) == |block| / interval
  {
    if COUNTER_RANGE % interval == 0 {
      MostIfEven(|block|, interval);
    }
    hide Reachable, Marks, Most;
    if |block| + 1 + Most(|block|, interval) <= depth {
      forall s | Reachable(order, block, s, Marks(interval)) ensures |s.cq| <= depth {
        CompletionsFit(order, block, s, interval);
      }
    } else {
      var n := BeforeTheWrap(interval, |block|);
      var s, r := FillQueues(order, block, n, Marks(interval));
    }
  }
}
