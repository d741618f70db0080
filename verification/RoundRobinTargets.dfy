/** How a closed-loop client picks the queue pair of its next request: it masks the successor
    of the last offset with the number of server threads less one. */
module RoundRobinTargets {
  import Arithmetic
  import opened Bits

  function Rotate(threads: nat, offset: nat): nat
    requires threads > 0
  {
    And(threads - 1, offset + 1)
  }

  /** The offset after `n` requests. */
  function Offset(threads: nat, start: nat, n: nat): nat
    requires threads > 0
  {
    if n == 0 then start else Rotate(threads, Offset(threads, start, n - 1))
  }

  predicate PowerOfTwo(t: nat) {
    t == 1 || (t > 0 && t % 2 == 0 && PowerOfTwo(t / 2))
  }

  lemma {:induction false} MaskIsRemainder(t: nat, x: nat)
    requires PowerOfTwo(t)
    ensures And(t - 1, x) == x % t
    decreases t
  {
    if t > 1 {
      var h := t / 2;
      MaskIsRemainder(h, x / 2);
      assert (t - 1) / 2 == h - 1;
      DoubleRemainder(x, h);
    }
  }

  lemma DoubleRemainder(x: nat, h: nat)
    requires h > 0
    ensures x % (2 * h) == x % 2 + 2 * (x / 2 % h)
  {
    var q, r := x / 2 / h, x / 2 % h;
    assert x / 2 == q * h + r;
    assert 2 * (q * h) == q * (2 * h);
    Arithmetic.DivUnique(x, 2 * h, q, 2 * r + x % 2);
  }

  /** An offset that the mask never yields: some bit of `t - 1` below its highest is clear. */
  function Missing(t: nat): (d: nat)
    requires t > 0 && !PowerOfTwo(t)
    ensures 0 < d < t
  {
    if t % 2 == 1 then 1 else 2 * Missing(t / 2)
  }

  lemma {:induction false} MaskMisses(t: nat, x: nat)
    requires t > 0 && !PowerOfTwo(t)
    ensures And(t - 1, x) != Missing(t)
    decreases t
  {
    if t % 2 == 0 && x > 0 {
      MaskMisses(t / 2, x / 2);
    }
  }

  lemma {:induction false} CountsModulo(threads: nat, start: nat, n: nat)
    requires PowerOfTwo(threads) && start < threads
    ensures Offset(threads, start, n) == (start + n) % threads
  {
    hide And, PowerOfTwo, Rotate;
    if n == 0 {
      Arithmetic.DivUnique(start, threads, 0, start);
    } else {
      var k: nat := start + n - 1;
      CountsModulo(threads, start, n - 1);
      RotateIsSuccessor(threads, k);
      assert start + n == k + 1;
    }
  }

  lemma NextRemainder(x: nat, t: nat)
    requires t > 0
    ensures (x % t + 1) % t == (x + 1) % t
  {
    Arithmetic.RemainderSucc(x, t);
    if x % t == t - 1 {
      Arithmetic.DivUnique(t, t, 1, 0);
    } else {
      Arithmetic.DivUnique(x % t + 1, t, 0, x % t + 1);
    }
  }

  lemma RotateIsSuccessor(threads: nat, k: nat)
    requires PowerOfTwo(threads)
    ensures Rotate(threads, k % threads) == (k + 1) % threads
  {
    MaskIsRemainder(threads, k % threads + 1);
    NextRemainder(k, threads);
  }

  // ---- where the rotation goes for any number of threads ----

  /** The largest power of two that divides `t`. */
  function Block(t: nat): (p: nat)
    requires t > 0
    ensures 0 < p <= t
  {
    if t % 2 == 1 then 1 else 2 * Block(t / 2)
  }

  /** The successor within a block of `p`. */
  function InBlock(p: nat, o: nat): nat
    requires p > 0
  {
    if o % p == p - 1 then o - (p - 1) else o + 1
  }

  lemma BlockHalves(p: nat, o: nat)
    requires p > 0
    ensures InBlock(2 * p, o) == if o % 2 == 0 then o + 1 else 2 * InBlock(p, o / 2)
  {
    DoubleRemainder(o, p);
  }

  /** With an odd number of threads an offset that the mask yields stays. */
  lemma RotateStays(m: nat, k: nat)
    ensures And(2 * m, 2 * k) == 2 * k ==> Rotate(2 * m + 1, 2 * k) == 2 * k
    ensures And(2 * m, 2 * k + 1) % 2 == 0
  {
    hide And;
    AndDouble(m, k);
  }

  /** With an even number it moves on if it is even, and otherwise as in half the threads. */
  lemma RotateEven(h: nat, k: nat)
    requires h > 0 && And(2 * h - 1, 2 * k) == 2 * k
    ensures Rotate(2 * h, 2 * k) == 2 * k + 1
  {
    hide And;
    AndDouble(h - 1, k);
  }

  lemma RotateOdd(h: nat, k: nat)
    requires h > 0 && And(2 * h - 1, 2 * k + 1) == 2 * k + 1
    ensures And(h - 1, k) == k && Rotate(2 * h, 2 * k + 1) == 2 * Rotate(h, k)
  {
    hide And;
    AndDouble(h - 1, k);
    AndDouble(h - 1, k + 1);
  }

  /** From an offset that the mask yields the rotation goes to the next of its block. */
  lemma {:induction false} RotateInBlock(t: nat, o: nat)
    requires t > 0 && And(t - 1, o) == o
    ensures Rotate(t, o) == InBlock(Block(t), o)
    decreases t
  {
    hide And, Rotate, InBlock;
    var h, k := t / 2, o / 2;
    if t % 2 == 1 {
      assert t == 2 * h + 1 && t - 1 == 2 * h;
      RotateStays(h, k);
      assert o == 2 * k;
      AloneInBlock(o);
    } else if o % 2 == 0 {
      assert t == 2 * h && o == 2 * k;
      RotateEven(h, k);
      BlockHalves(Block(h), o);
    } else {
      assert t == 2 * h && o == 2 * k + 1;
      RotateOdd(h, k);
      RotateInBlock(h, k);
      BlockHalves(Block(h), o);
    }
  }

  lemma AloneInBlock(o: nat)
    ensures InBlock(1, o) == o
  {
  }

  lemma StaysInBlock(p: nat, o: nat)
    requires p > 0
    ensures InBlock(p, o) / p == o / p
    ensures InBlock(p, o) % p == if o % p == p - 1 then 0 else o % p + 1
  {
    var q, r := o / p, o % p;
    assert o == q * p + r;
    if r == p - 1 {
      Arithmetic.DivUnique(o - r, p, q, 0);
    } else {
      Arithmetic.DivUnique(o + 1, p, q, r + 1);
    }
  }

  /** After the first request the rotation stays in one block of that many threads. */
  lemma {:induction false} OffsetInBlock(threads: nat, start: nat, n: nat)
    requires threads > 0 && n > 0
    ensures Offset(threads, start, n) / Block(threads) == Rotate(threads, start) / Block(threads)
    ensures And(threads - 1, Offset(threads, start, n)) == Offset(threads, start, n)
    ensures Offset(threads, start, n) < threads
  {
    hide And, Block, InBlock;
    MaskTwice(threads - 1, Offset(threads, start, n - 1) + 1);
    if n > 1 {
      OffsetInBlock(threads, start, n - 1);
      RotateInBlock(threads, Offset(threads, start, n - 1));
      StaysInBlock(Block(threads), Offset(threads, start, n - 1));
    }
  }

  /** Whether a client that starts at `start` keeps coming back to server thread `d`. */
  predicate Returns(threads: nat, start: nat, d: nat)
    requires threads > 0
  {
    d / Block(threads) == Rotate(threads, start) / Block(threads)
  }

  /** The next request to `d`, counting from request `n`. */
  lemma NextVisit(threads: nat, start: nat, d: nat, n: nat) returns (m: nat)
    requires threads > 0 && d < threads && Returns(threads, start, d)
    ensures m >= n && Offset(threads, start, m) == d
  {
    m := Walk(threads, start, d, n + 1, Block(threads));
  }

  /** Within `k` requests, if `d` is less than `k` places ahead in the block. */
  lemma {:induction false} Walk(threads: nat, start: nat, d: nat, n: nat, k: nat) returns (m: nat)
    requires threads > 0 && d < threads && Returns(threads, start, d) && n > 0
    requires Ahead(Block(threads), Offset(threads, start, n), d) < k
    ensures m >= n && Offset(threads, start, m) == d
    decreases k
  {
    var p, o := Block(threads), Offset(threads, start, n);
    OffsetInBlock(threads, start, n);
    hide And, Block, InBlock, Rotate;
    if Ahead(p, o, d) == 0 {
      m := n;
      SamePlace(p, o, d);
    } else {
      RotateInBlock(threads, o);
      StaysInBlock(p, o);
      m := Walk(threads, start, d, n + 1, k - 1);
    }
  }

  /** How many places `d` is ahead of `o` within a block of `p`, wrapping round. */
  function Ahead(p: nat, o: nat, d: nat): (k: nat)
    requires p > 0
    ensures k < p
  {
    if o % p <= d % p then d % p - o % p else p + d % p - o % p
  }

  lemma SamePlace(p: nat, o: nat, d: nat)
    requires p > 0 && o / p == d / p && Ahead(p, o, d) == 0
    ensures o == d
  {
    assert o == (o / p) * p + o % p && d == (d / p) * p + d % p;
  }

  /** Request `n` after the first goes only to server threads that the rotation keeps coming
      back to; so the start, if it is not one of them, is visited once. */
  lemma VisitsIff(threads: nat, start: nat, d: nat)
    requires threads > 0 && d < threads
    ensures Returns(threads, start, d) <==> forall n: nat :: ComesAfter(threads, start, d, n)
    ensures !Returns(threads, start, d) ==> forall n: nat | n > 0 :: Offset(threads, start, n) != d
  {
    if Returns(threads, start, d) {
      forall n: nat ensures ComesAfter(threads, start, d, n) {
        var m := NextVisit(threads, start, d, n);
      }
    } else {
      forall n: nat | n > 0 ensures Offset(threads, start, n) != d {
        OffsetInBlock(threads, start, n);
      }
      assert !ComesAfter(threads, start, d, 1);
    }
  }

  ghost predicate ComesAfter(threads: nat, start: nat, d: nat, n: nat)
    requires threads > 0
  {
    exists m: nat :: m >= n && Offset(threads, start, m) == d
  }

  lemma {:induction false} BlockIsAllIff(t: nat)
    requires t > 0
    ensures Block(t) == t <==> PowerOfTwo(t)
  {
    if t % 2 == 0 {
      BlockIsAllIff(t / 2);
    }
  }

  /** With a power of two of threads there is one block, and every thread is in it. */
  lemma AllReturn(threads: nat, start: nat, d: nat)
    requires PowerOfTwo(threads) && d < threads
    ensures Returns(threads, start, d)
  {
    BlockIsAllIff(threads);
    OffsetInBlock(threads, start, 1);
    Arithmetic.DivUnique(d, threads, 0, d);
    Arithmetic.DivUnique(Rotate(threads, start), threads, 0, Rotate(threads, start));
  }

  /** Wherever it stands, the rotation comes to every server thread again. */
  ghost predicate ReachesAll(threads: nat)
    requires threads > 0
  {
    forall start, d | 0 <= start < threads && 0 <= d < threads :: Comes(threads, start, d)
  }

  ghost predicate Comes(threads: nat, start: nat, d: nat)
    requires threads > 0
  {
    exists n: nat :: n > 0 && Offset(threads, start, n) == d
  }

  /** The requests go round all the server threads exactly when their number is a power of
      two. */
  lemma ReachesAllIff(threads: nat)
    requires threads > 0
    ensures ReachesAll(threads) <==> PowerOfTwo(threads)
  {
    if PowerOfTwo(threads) {
      forall start, d | 0 <= start < threads && 0 <= d < threads ensures Comes(threads, start, d) {
        var n := threads + d - start;
        CountsModulo(threads, start, n);
        Arithmetic.DivUnique(start + n, threads, 1, d);
      }
    } else {
      var d := Missing(threads);
      forall n: nat | n > 0 ensures Offset(threads, 0, n) != d {
        MaskMisses(threads, Offset(threads, 0, n - 1) + 1);
      }
      assert !Comes(threads, 0, d);
    }
  }
}
