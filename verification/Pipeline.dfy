/** A queue pair's completions in the order they will be handled, and what that order says
    about sends. Only every `interval`-th send reports a completion. */
module Pipeline {
  import opened Arithmetic

  /** A receive completion names its buffer and the sender's queue pair. A send completion is
      identified by the number of the send it reports, counting from 1; it stands for all
      sends up to that one. */
  datatype Wc = RecvWc(buf: nat, src: nat) | SendWc(number: nat)

  /** `rcnt` is an `unsigned int`. */
  const COUNTER_RANGE: nat := 0x1_0000_0000

  /** `conn->rcnt % signalInterval == 0`, where `n` receives have been taken in all. */
  predicate Signalled(n: nat, interval: nat)
    requires interval > 0
  {
    (n % COUNTER_RANGE) % interval == 0
  }

  /** The shortest distance between signalled sends. When the interval does not divide the
      counter's range, the counter's wrap brings two of them closer together. */
  ghost function Gap(interval: nat): (g: nat)
    requires 0 < interval < COUNTER_RANGE
    ensures 0 < g <= interval
  {
    if COUNTER_RANGE % interval == 0 then interval else COUNTER_RANGE % interval
  }

  lemma MultiplesApart(a: nat, b: nat, d: nat)
    requires d > 0 && a < b && a % d == 0 && b % d == 0
    ensures b - a >= d
  {
    assert a == (a / d) * d && b == (b / d) * d;
    MulMono(a / d, b / d, d);
    MulMono(b / d, a / d, d);
  }

  lemma SignalledApart(n1: nat, n2: nat, interval: nat)
    requires 0 < interval < COUNTER_RANGE && n1 < n2
    requires Signalled(n1, interval) && Signalled(n2, interval)
    ensures n2 - n1 >= Gap(interval)
  {
    var a, b := n1 % COUNTER_RANGE, n2 % COUNTER_RANGE;
    if n1 / COUNTER_RANGE == n2 / COUNTER_RANGE {
      MultiplesApart(a, b, interval);
    } else {
      var top := COUNTER_RANGE - COUNTER_RANGE % interval;
      assert top == (COUNTER_RANGE / interval) * interval;
      DivUnique(top, interval, COUNTER_RANGE / interval, 0);
      if a >= top && top < COUNTER_RANGE {
        if a > top {
          MultiplesApart(top, a, interval);
        }
      } else if a < top {
        MultiplesApart(a, top, interval);
      }
    }
  }

  /** The numbers of the sends that report a completion. The protocol arguments below hold
      for any choice of marks; this is the choice the servers make. */
  ghost function Marks(interval: nat): iset<nat>
    requires interval > 0
  {
    iset n: nat | Signalled(n, interval)
  }

  /** Marked sends are at least `gap` apart; the count starts at a mark. */
  ghost predicate Spaced(marks: iset<nat>, gap: nat) {
    && gap > 0 && 0 in marks
    && forall n1, n2 | n1 in marks && n2 in marks && n1 < n2 :: n2 - n1 >= gap
  }

  /** Of the `interval` sends after send `n`, one is marked. */
  ghost predicate MarkedSoon(marks: iset<nat>, n: nat, interval: nat) {
    exists k :: n < k <= n + interval && k in marks
  }

  lemma MarksAreSpaced(interval: nat)
    requires 0 < interval < COUNTER_RANGE
    ensures Spaced(Marks(interval), Gap(interval))
    ensures forall n: nat :: MarkedSoon(Marks(interval), n, interval)
  {
    forall n1, n2 | n1 in Marks(interval) && n2 in Marks(interval) && n1 < n2
      ensures n2 - n1 >= Gap(interval) {
      SignalledApart(n1, n2, interval);
    }
    forall n: nat ensures MarkedSoon(Marks(interval), n, interval) {
      var k := SignalledSoon(n, interval);
      assert k in Marks(interval);
    }
  }

  /** Of any `interval` consecutive sends, one is signalled. */
  lemma SignalledSoon(n: nat, interval: nat) returns (k: nat)
    requires 0 < interval < COUNTER_RANGE
    ensures n < k <= n + interval && Signalled(k, interval)
  {
    hide Signalled;
    var c, m := n / COUNTER_RANGE, n % COUNTER_RANGE;
    var next := NextMultiple(m, interval);
    if next < COUNTER_RANGE {
      k := c * COUNTER_RANGE + next;
      InRound(c, next, interval);
    } else {
      k := (c + 1) * COUNTER_RANGE;
      InRound(c + 1, 0, interval);
    }
  }

  lemma NextMultiple(m: nat, interval: nat) returns (next: nat)
    requires interval > 0
    ensures m < next <= m + interval && next % interval == 0
    ensures 0 % interval == 0
  {
    next := (m / interval + 1) * interval;
    assert next == (m / interval) * interval + interval;
    DivUnique(next, interval, m / interval + 1, 0);
    DivUnique(0, interval, 0, 0);
  }

  /** What is signalled in one round of the counter. */
  lemma InRound(c: nat, x: nat, interval: nat)
    requires interval > 0 && x < COUNTER_RANGE
    ensures Signalled(c * COUNTER_RANGE + x, interval) <==> x % interval == 0
  {
    DivUnique(c * COUNTER_RANGE + x, COUNTER_RANGE, c, x);
  }

  ghost function Receives(pipe: seq<Wc>): nat {
    if pipe == [] then 0 else (if pipe[0].RecvWc? then 1 else 0) + Receives(pipe[1..])
  }

  ghost function Sends(pipe: seq<Wc>): nat {
    if pipe == [] then 0 else (if pipe[0].SendWc? then 1 else 0) + Sends(pipe[1..])
  }

  lemma {:induction false} CountsAll(pipe: seq<Wc>)
    ensures Receives(pipe) + Sends(pipe) == |pipe|
  {
    if pipe != [] {
      CountsAll(pipe[1..]);
    }
  }

  /** Receives of `bufs` in order, all from one sender. */
  ghost function RecvWcs(bufs: seq<nat>, src: nat): seq<Wc> {
    seq(|bufs|, i requires 0 <= i < |bufs| => RecvWc(bufs[i], src))
  }

  lemma OneLess(cq: seq<Wc>, bufs: seq<nat>, src: nat)
    requires bufs != []
    ensures bufs[0] in multiset(bufs)
    ensures multiset(bufs) - multiset{bufs[0]} == multiset(bufs[1..])
    ensures (cq + [RecvWc(bufs[0], src)]) + RecvWcs(bufs[1..], src) == cq + RecvWcs(bufs, src)
  {
    assert bufs == [bufs[0]] + bufs[1..];
    assert RecvWcs(bufs, src) == [RecvWc(bufs[0], src)] + RecvWcs(bufs[1..], src);
  }

  /** The buffers that receive completions hold. */
  ghost function Held(pipe: seq<Wc>): (bag: multiset<nat>)
    ensures |bag| == Receives(pipe)
  {
    if pipe == [] then multiset{}
    else (if pipe[0].RecvWc? then multiset{pipe[0].buf} else multiset{}) + Held(pipe[1..])
  }

  lemma {:induction false} HeldConcat(a: seq<Wc>, b: seq<Wc>)
    ensures Held(a + b) == Held(a) + Held(b)
    ensures Receives(a + b) == Receives(a) + Receives(b)
    ensures Sends(a + b) == Sends(a) + Sends(b)
  {
    if a == [] {
      assert a + b == b;
    } else {
      assert (a + b)[1..] == a[1..] + b;
      HeldConcat(a[1..], b);
    }
  }

  /** When `due` receives have been taken at the front of `pipe`, a send completion reached
      `r` receives later reports a send at most `bufs` behind the `due + r` then taken. */
  ghost predicate OnTime(pipe: seq<Wc>, due: nat, bufs: nat) {
    pipe == [] ||
    match pipe[0]
    case RecvWc(_, _) => OnTime(pipe[1..], due + 1, bufs)
    case SendWc(n) => n <= due <= n + bufs && OnTime(pipe[1..], due, bufs)
  }

  lemma {:induction false} OnTimeConcat(a: seq<Wc>, b: seq<Wc>, due: nat, bufs: nat)
    ensures OnTime(a + b, due, bufs) <==>
            OnTime(a, due, bufs) && OnTime(b, due + Receives(a), bufs)
  {
    if a == [] {
      assert a + b == b;
    } else {
      assert (a + b)[1..] == a[1..] + b;
      OnTimeConcat(a[1..], b, if a[0].RecvWc? then due + 1 else due, bufs);
    }
  }

  /** Send completions report marked sends after `lo`, in order, none after `hi`. */
  ghost predicate Ascending(pipe: seq<Wc>, lo: nat, hi: nat, marks: iset<nat>)
  {
    pipe == [] ||
    match pipe[0]
    case RecvWc(_, _) => Ascending(pipe[1..], lo, hi, marks)
    case SendWc(n) => lo < n <= hi && n in marks && Ascending(pipe[1..], n, hi, marks)
  }

  function LastSend(pipe: seq<Wc>, lo: nat): nat {
    if pipe == [] then lo
    else LastSend(pipe[1..], if pipe[0].SendWc? then pipe[0].number else lo)
  }

  lemma {:induction false} AscendingConcat(a: seq<Wc>, b: seq<Wc>, lo: nat, hi: nat, marks: iset<nat>)
    ensures Ascending(a + b, lo, hi, marks) <==>
            Ascending(a, lo, hi, marks) && Ascending(b, LastSend(a, lo), hi, marks)
  {
    if a == [] {
      assert a + b == b;
    } else {
      assert (a + b)[1..] == a[1..] + b;
      AscendingConcat(a[1..], b, if a[0].SendWc? then a[0].number else lo, hi, marks);
    }
  }

  lemma {:induction false} AscendingBounds(pipe: seq<Wc>, lo: nat, hi: nat, hi': nat, marks: iset<nat>)
    requires lo <= hi <= hi' && Ascending(pipe, lo, hi, marks)
    ensures Ascending(pipe, lo, hi', marks)
    ensures lo <= LastSend(pipe, lo) <= hi
    ensures forall x | x in pipe && x.SendWc? :: lo < x.number <= LastSend(pipe, lo)
  {
    if pipe != [] {
      AscendingBounds(pipe[1..], if pipe[0].SendWc? then pipe[0].number else lo, hi, hi', marks);
    }
  }

  /** Every marked send after `lo` up to `hi` has its completion in `cq`. */
  ghost predicate Reported(cq: seq<Wc>, lo: nat, hi: nat, marks: iset<nat>)
  {
    && lo <= hi && Ascending(cq, lo, hi, marks)
    && forall n | lo < n <= hi && n in marks :: SendWc(n) in cq
  }

  /** What posting send `n` adds to the completion queue. */
  ghost function Completion(n: nat, marks: iset<nat>): seq<Wc>
  {
    if n in marks then [SendWc(n)] else []
  }

  /** The completion of the latest send may join the end of the pipe. */
  lemma OnTimeNext(pipe: seq<Wc>, due: nat, n: nat, bufs: nat, marks: iset<nat>)
    requires OnTime(pipe, due, bufs) && n <= due && due + Receives(pipe) <= n + bufs
    ensures OnTime(pipe + Completion(n, marks), due, bufs)
    ensures Held(pipe + Completion(n, marks)) == Held(pipe)
  {
    var wcs := Completion(n, marks);
    HeldConcat(pipe, wcs);
    OnTimeConcat(pipe, wcs, due, bufs);
    assert wcs != [] ==> wcs[1..] == [];
  }

  lemma ArrivalJoins(pipe: seq<Wc>, b: nat, src: nat, due: nat, bufs: nat)
    requires OnTime(pipe, due, bufs)
    ensures OnTime(pipe + [RecvWc(b, src)], due, bufs)
    ensures Held(pipe + [RecvWc(b, src)]) == Held(pipe) + multiset{b}
  {
    HeldConcat(pipe, [RecvWc(b, src)]);
    OnTimeConcat(pipe, [RecvWc(b, src)], due, bufs);
    assert [RecvWc(b, src)][1..] == [];
  }

  lemma ArrivalAscends(cq: seq<Wc>, b: nat, src: nat, lo: nat, hi: nat, marks: iset<nat>)
    requires Ascending(cq, lo, hi, marks)
    ensures Ascending(cq + [RecvWc(b, src)], lo, hi, marks)
    ensures Sends(cq + [RecvWc(b, src)]) == Sends(cq)
  {
    AscendingConcat(cq, [RecvWc(b, src)], lo, hi, marks);
    HeldConcat(cq, [RecvWc(b, src)]);
    assert [RecvWc(b, src)][1..] == [];
  }

  lemma AscendingNext(cq: seq<Wc>, lo: nat, n: nat, marks: iset<nat>)
    requires lo < n && Ascending(cq, lo, n - 1, marks)
    ensures Ascending(cq + Completion(n, marks), lo, n, marks)
  {
    var wcs := Completion(n, marks);
    AscendingBounds(cq, lo, n - 1, n, marks);
    AscendingConcat(cq, wcs, lo, n, marks);
    assert wcs != [] ==> wcs[1..] == [];
  }

  lemma ReportNext(cq: seq<Wc>, lo: nat, n: nat, marks: iset<nat>)
    requires n > 0 && Reported(cq, lo, n - 1, marks)
    ensures Reported(cq + Completion(n, marks), lo, n, marks)
  {
    AscendingNext(cq, lo, n, marks);
    assert n in marks ==> SendWc(n) in cq + Completion(n, marks);
  }

  /** An arrival is no report. */
  lemma ReportArrival(cq: seq<Wc>, b: nat, src: nat, lo: nat, hi: nat, marks: iset<nat>)
    requires Reported(cq, lo, hi, marks)
    ensures Reported(cq + [RecvWc(b, src)], lo, hi, marks)
  {
    ArrivalAscends(cq, b, src, lo, hi, marks);
    hide Ascending;
    assert forall n | lo < n <= hi && n in marks :: SendWc(n) in cq;
  }

  /** The completion at the head of the pipe, taken. */
  lemma HeadTaken(pipe: seq<Wc>, due: nat, bufs: nat)
    requires pipe != [] && OnTime(pipe, due, bufs)
    ensures pipe[0].RecvWc? ==>
              OnTime(pipe[1..], due + 1, bufs) && Held(pipe) == multiset{pipe[0].buf} + Held(pipe[1..])
    ensures pipe[0].SendWc? ==> OnTime(pipe[1..], due, bufs) && Held(pipe) == Held(pipe[1..])
  {
  }

  /** The tail of an ascending pipe ascends from the same place. */
  lemma AscendingLowers(pipe: seq<Wc>, lo: nat, hi: nat, marks: iset<nat>)
    requires pipe != [] && Ascending(pipe, lo, hi, marks)
    ensures Ascending(pipe[1..], lo, hi, marks)
  {
    if pipe[0].SendWc? {
      LowerStart(pipe[1..], lo, pipe[0].number, hi, marks);
    }
  }

  lemma {:induction false} LowerStart(pipe: seq<Wc>, lo: nat, lo': nat, hi: nat, marks: iset<nat>)
    requires lo <= lo' && Ascending(pipe, lo', hi, marks)
    ensures Ascending(pipe, lo, hi, marks)
  {
    if pipe != [] && pipe[0].RecvWc? {
      LowerStart(pipe[1..], lo, lo', hi, marks);
    }
  }

  lemma ReportPolled(a: seq<Wc>, b: seq<Wc>, lo: nat, hi: nat, marks: iset<nat>)
    requires Reported(a + b, lo, hi, marks)
    ensures Reported(b, LastSend(a, lo), hi, marks)
  {
    AscendingConcat(a, b, lo, hi, marks);
    AscendingBounds(a, lo, hi, hi, marks);
  }

  /** Marked sends after a marked one are a gap apart each. */
  lemma {:induction false} SpreadOut(pipe: seq<Wc>, lo: nat, hi: nat, marks: iset<nat>, gap: nat)
    requires Spaced(marks, gap) && lo <= hi
    requires lo in marks && Ascending(pipe, lo, hi, marks)
    ensures Rounds(Sends(pipe), gap) <= hi - lo
  {
    if pipe != [] {
      if pipe[0].SendWc? {
        SpreadOut(pipe[1..], pipe[0].number, hi, marks, gap);
      } else {
        SpreadOut(pipe[1..], lo, hi, marks, gap);
      }
    }
  }

  /** The first send completion is at most `bufs` sends old, so only sends that recent can
      report behind it. */
  lemma {:induction false} FewSends(pipe: seq<Wc>, due: nat, bufs: nat, lo: nat, hi: nat, marks: iset<nat>,
                                    gap: nat)
    requires Spaced(marks, gap) && lo <= hi <= due
    requires OnTime(pipe, due, bufs) && Ascending(pipe, lo, hi, marks)
    ensures Sends(pipe) <= 1 + bufs / gap
  {
    if pipe != [] {
      if pipe[0].SendWc? {
        SpreadOut(pipe[1..], pipe[0].number, hi, marks, gap);
        RoundsBound(Sends(pipe[1..]), gap, bufs);
      } else {
        FewSends(pipe[1..], due + 1, bufs, lo, hi, marks, gap);
      }
    }
  }
}
