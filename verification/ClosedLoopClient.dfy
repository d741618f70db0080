/** The loading thread of the closed-loop client, refining the client of `ClosedLoop`. */
module ClosedLoopClient {
  import opened ClosedLoop
  import opened ClosedLoopLimits
  import RoundRobinTargets
  import Bits

  datatype Completion = Completion(wrId: nat)

  /** A request: which server thread's queue pair it goes to, from which send buffer. */
  datatype Request = Request(target: nat, slot: nat)

  /** A response is handled: its receive is reposted and, unless the thread has sent enough,
      another request goes out. */
  function Handled(c: Client, again: bool): Client
    requires c.cq > 0
  {
    var d := c.(cq := c.cq - 1, received := c.received + 1, posted := c.posted + 1);
    if again then d.(sent := d.sent + 1) else d.(stopped := d.stopped + 1)
  }

  /** That is a run of the protocol, the request going where the routing says. */
  lemma HandledIsARun(r: Routing, windows: seq<nat>, buffers: seq<nat>, s: State, i: nat, again: bool, q: nat)
      returns (s': State)
    requires Reachable(r, windows, buffers, s) && i < |s.clients| && q < |s.servers|
    requires s.clients[i].unsent == 0 && s.clients[i].ready == 0 && s.clients[i].cq > 0
    requires Routed(r, s, SendNext(i, q))
    ensures Reachable(r, windows, buffers, s')
    ensures s'.clients == s.clients[i := Handled(s.clients[i], again)]
    ensures s'.servers == if again then s.servers[q := s.servers[q].(requests := s.servers[q].requests + multiset{i})]
                          else s.servers
  {
    hide Reachable;
    Next(r, windows, buffers, s, RepostReceive(i));
    var t := Apply(s, RepostReceive(i));
    var a := if again then SendNext(i, q) else Stop(i);
    Next(r, windows, buffers, t, a);
    s' := Apply(t, a);
  }

  /** A completion names a send buffer below `numBufs` and a receive above: the receives that a
      batch names, in order. */
  function ReceiveIds(wc: seq<Completion>, numBufs: nat): (ids: seq<nat>)
    ensures |ids| <= |wc|
    ensures forall k | 0 <= k < |ids| :: numBufs <= ids[k] < 2 * numBufs
  {
    if wc == [] then []
    else
      var a := wc[|wc| - 1].wrId;
      ReceiveIds(wc[..|wc| - 1], numBufs) + if numBufs <= a < 2 * numBufs then [a] else []
  }

  /** How many sends it reports. */
  function SendsIn(wc: seq<Completion>, numBufs: nat): (n: nat)
    ensures n <= |wc|
  {
    if wc == [] then 0
    else SendsIn(wc[..|wc| - 1], numBufs) + if wc[|wc| - 1].wrId < numBufs then 1 else 0
  }

  lemma {:induction false} PrefixCounts(wc: seq<Completion>, numBufs: nat, i: nat)
    requires i <= |wc|
    ensures |ReceiveIds(wc[..i], numBufs)| <= |ReceiveIds(wc, numBufs)|
    ensures SendsIn(wc[..i], numBufs) <= SendsIn(wc, numBufs)
    decreases |wc|
  {
    if i < |wc| {
      PrefixCounts(wc[..|wc| - 1], numBufs, i);
      assert wc[..|wc| - 1][..i] == wc[..i];
    } else {
      assert wc[..i] == wc;
    }
  }

  /** The `m` completions before the thread has sent enough: those during which fewer than
      `iters` sends are known to have completed. */
  ghost predicate Enough(wc: seq<Completion>, numBufs: nat, scnt: nat, iters: nat, m: nat) {
    && m <= |wc|
    && (forall i | 0 <= i < m :: StillSending(wc, numBufs, scnt, iters, i))
    && (m < |wc| ==> !StillSending(wc, numBufs, scnt, iters, m))
  }

  /** Fewer than `iters` sends are known to have completed after `i` completions. */
  ghost predicate StillSending(wc: seq<Completion>, numBufs: nat, scnt: nat, iters: nat, i: nat)
    requires i <= |wc|
  {
    scnt + SendsIn(wc[..i], numBufs) < iters
  }

  /** What is sent in answer to the responses in `ids`: each from the buffer that matches its
      receive. */
  ghost predicate FromMatching(sent: seq<Request>, ids: seq<nat>, numBufs: nat) {
    |sent| == |ids| && forall k | 0 <= k < |ids| :: sent[k].slot + numBufs == ids[k]
  }

  lemma NextCompletion(wc: seq<Completion>, numBufs: nat, i: nat)
    requires i < |wc|
    ensures var a := wc[i].wrId;
            && ReceiveIds(wc[..i + 1], numBufs)
               == ReceiveIds(wc[..i], numBufs) + (if numBufs <= a < 2 * numBufs then [a] else [])
            && SendsIn(wc[..i + 1], numBufs) == SendsIn(wc[..i], numBufs) + if a < numBufs then 1 else 0
  {
    assert wc[..i + 1][..i] == wc[..i];
  }

  /** What handling completions changes. */
  datatype Account = Account(posted: multiset<nat>, pending: nat, rcnt: nat, scnt: nat, log: seq<Request>, stopped: nat)

  /** One completion. */
  ghost predicate Follows(numBufs: nat, iters: nat, c: Account, a: nat, d: Account) {
    if a < numBufs then d == c.(scnt := c.scnt + 1)
    else if a < 2 * numBufs then
      && c.pending > 0
      && d == c.(posted := c.posted + multiset{a}, pending := c.pending - 1, rcnt := c.rcnt + 1,
                 log := d.log, stopped := d.stopped)
      && if c.scnt < iters then
           d.stopped == c.stopped && |d.log| == |c.log| + 1 && d.log[..|c.log|] == c.log
           && d.log[|c.log|].slot == a - numBufs
         else d.stopped == c.stopped + 1 && d.log == c.log
    else d == c
  }

  /** A batch: every receive it names is reposted, and those named before the thread has sent
      enough, `m` completions into it, are each answered with a request from the matching buffer. */
  ghost predicate Batch(wc: seq<Completion>, numBufs: nat, iters: nat, c: Account, m: nat, d: Account) {
    && Counted(ReceiveIds(wc, numBufs), SendsIn(wc, numBufs), c, d)
    && Enough(wc, numBufs, c.scnt, iters, m)
    && |c.log| <= |d.log| && d.log[..|c.log|] == c.log
    && FromMatching(d.log[|c.log|..], ReceiveIds(wc[..m], numBufs), numBufs)
  }

  /** The receives `ids` and `sends` send completions are accounted for. */
  ghost predicate Counted(ids: seq<nat>, sends: nat, c: Account, d: Account) {
    && d.posted == c.posted + multiset(ids)
    && d.pending == c.pending - |ids| && d.rcnt == c.rcnt + |ids|
    && d.scnt == c.scnt + sends
    && |d.log| + d.stopped == |c.log| + c.stopped + |ids|
  }

  lemma NoCompletions(numBufs: nat, iters: nat, c: Account)
    ensures Batch([], numBufs, iters, c, 0, c)
  {
    assert c.log[|c.log|..] == [];
  }

  lemma SamePrefix<T>(s: seq<T>, i: nat, k: nat)
    requires k <= i <= |s|
    ensures s[..i][..k] == s[..k]
  {
  }

  lemma EnoughStep(wc: seq<Completion>, numBufs: nat, scnt: nat, iters: nat, i: nat, m: nat)
    requires i < |wc| && Enough(wc[..i], numBufs, scnt, iters, m)
    ensures m <= i
    ensures var done := scnt + SendsIn(wc[..i], numBufs);
            && (done < iters ==> m == i)
            && Enough(wc[..i + 1], numBufs, scnt, iters, if done < iters then i + 1 else m)
    ensures wc[..i][..m] == wc[..m] && wc[..i + 1][..m] == wc[..m]
  {
    hide SendsIn;
    SamePrefix(wc, i, m);
    SamePrefix(wc, i + 1, m);
    PrefixCounts(wc[..i], numBufs, m);
    var n := if scnt + SendsIn(wc[..i], numBufs) < iters then i + 1 else m;
    var longer := wc[..i + 1];
    forall k | 0 <= k < n ensures StillSending(longer, numBufs, scnt, iters, k) {
      SamePrefix(wc, i + 1, k);
      if k < m {
        SamePrefix(wc, i, k);
        assert StillSending(wc[..i], numBufs, scnt, iters, k);
      }
    }
  }

  /** One more completion of the batch. */
  lemma BatchStep(wc: seq<Completion>, numBufs: nat, iters: nat, c: Account, i: nat, m: nat, d: Account, e: Account)
    requires i < |wc| && Batch(wc[..i], numBufs, iters, c, m, d) && Follows(numBufs, iters, d, wc[i].wrId, e)
    ensures Batch(wc[..i + 1], numBufs, iters, c, if d.scnt < iters then i + 1 else m, e)
  {
    hide ReceiveIds, SendsIn, Enough, FromMatching, Follows, Counted;
    NextCompletion(wc, numBufs, i);
    EnoughStep(wc, numBufs, c.scnt, iters, i, m);
    CountStep(numBufs, iters, ReceiveIds(wc[..i], numBufs), SendsIn(wc[..i], numBufs), c, wc[i].wrId, d, e);
    assert Counted(ReceiveIds(wc[..i + 1], numBufs), SendsIn(wc[..i + 1], numBufs), c, e);
    LogStep(wc, numBufs, iters, c.log, i, m, d, e);
    var n := if d.scnt < iters then i + 1 else m;
    assert wc[..i + 1][..n] == wc[..n];
    assert FromMatching(e.log[|c.log|..], ReceiveIds(wc[..i + 1][..n], numBufs), numBufs);
    assert Enough(wc[..i + 1], numBufs, c.scnt, iters, n);
  }

  lemma CountStep(numBufs: nat, iters: nat, ids: seq<nat>, sends: nat, c: Account, a: nat, d: Account, e: Account)
    requires Counted(ids, sends, c, d) && Follows(numBufs, iters, d, a, e)
    ensures d.scnt == c.scnt + sends
    ensures Counted(ids + (if numBufs <= a < 2 * numBufs then [a] else []), sends + if a < numBufs then 1 else 0, c, e)
  {
    PostMore(c.posted, ids, a);
    assert ids + [] == ids;
  }

  lemma PostMore(posted: multiset<nat>, ids: seq<nat>, a: nat)
    ensures posted + multiset(ids) + multiset{a} == posted + multiset(ids + [a])
  {
  }

  lemma LogStep(wc: seq<Completion>, numBufs: nat, iters: nat, log: seq<Request>, i: nat, m: nat,
                d: Account, e: Account)
    requires i < |wc| && m <= i && |log| <= |d.log| && d.log[..|log|] == log
    requires FromMatching(d.log[|log|..], ReceiveIds(wc[..m], numBufs), numBufs)
    requires Follows(numBufs, iters, d, wc[i].wrId, e) && (d.scnt < iters ==> m == i)
    ensures |log| <= |e.log| && e.log[..|log|] == log
    ensures FromMatching(e.log[|log|..], ReceiveIds(wc[..if d.scnt < iters then i + 1 else m], numBufs), numBufs)
  {
    hide FromMatching;
    NextCompletion(wc, numBufs, i);
    hide ReceiveIds, SendsIn;
    if e.log != d.log {
      assert e.log == d.log + [e.log[|d.log|]];
      assert e.log[|log|..] == d.log[|log|..] + [e.log[|d.log|]];
    }
    var ids := ReceiveIds(wc[..i], numBufs);
    assert ids + [] == ids;
    if d.scnt < iters {
      NextMatching(d.log[|log|..], ReceiveIds(wc[..i], numBufs), numBufs, e.log[|log|..],
                   ReceiveIds(wc[..i + 1], numBufs));
    }
  }

  lemma NextMatching(sent: seq<Request>, ids: seq<nat>, numBufs: nat, sent': seq<Request>, ids': seq<nat>)
    requires FromMatching(sent, ids, numBufs)
    requires (sent' == sent && ids' == ids)
          || (|sent'| == |sent| + 1 && sent'[..|sent|] == sent
              && ids' == ids + [sent'[|sent|].slot + numBufs])
    ensures FromMatching(sent', ids', numBufs)
  {
    forall k | 0 <= k < |ids'| ensures sent'[k].slot + numBufs == ids'[k] {
      if k < |sent| {
        assert sent'[..|sent|][k] == sent[k];
      }
    }
  }

  /** The receives `numBufs .. numBufs + n - 1`, each once. */
  ghost predicate PostsWindow(posted: multiset<nat>, numBufs: nat, n: nat) {
    forall a :: posted[a] == if numBufs <= a < numBufs + n then 1 else 0
  }

  class LoadingThread {
    const numBufs: nat
    const windowSize: nat
    const iters: nat
    const serverThreads: nat
    const start: nat
    var posted: multiset<nat>      // receives the queue pair holds
    ghost var pending: nat         // responses received and not handled yet
    ghost var unsent: nat
    ghost var stopped: nat
    var log: seq<Request>
    var rcnt: nat
    var scnt: nat
    var routs: int
    var souts: int
    var offset: nat

    ghost function View(): Client
      reads this
    {
      Client(windowSize, unsent, |posted|, pending, 0, stopped, |log|, rcnt)
    }

    ghost function Books(): Account
      reads this
    {
      Account(posted, pending, rcnt, scnt, log, stopped)
    }

    /** The counters mean what they say, and request `k` went where the rotation then stood. */
    ghost predicate Valid()
      reads this
    {
      && windowSize <= numBufs && serverThreads > 0
      && routs == |posted| + pending
      && souts == |log| - scnt
      && offset == RoundRobinTargets.Offset(serverThreads, start, |log|)
      && forall k | 0 <= k < |log| ::
           log[k].target == RoundRobinTargets.Offset(serverThreads, start, k) && log[k].slot < numBufs
    }

    constructor (numBufs: nat, windowSize: nat, iters: nat, serverThreads: nat, threadNum: nat)
      requires windowSize <= numBufs && serverThreads > 0
      ensures Valid() && View() == Client(windowSize, windowSize, 0, 0, 0, 0, 0, 0)
      ensures this.numBufs == numBufs && this.windowSize == windowSize && this.iters == iters
      ensures this.serverThreads == serverThreads && start == threadNum % serverThreads
      ensures posted == multiset{} && scnt == 0
    {
      this.numBufs, this.windowSize, this.iters := numBufs, windowSize, iters;
      this.serverThreads, start, offset := serverThreads, threadNum % serverThreads, threadNum % serverThreads;
      posted, log, pending, unsent, stopped := multiset{}, [], 0, windowSize, 0;
      rcnt, scnt, routs, souts := 0, 0, 0, 0;
    }

    /** Sends from buffer `slot` to the target in turn and moves on to the next. */
    method PostRequest(slot: nat)
      requires Valid() && slot < numBufs
      modifies this`log, this`souts, this`offset
      ensures Valid() && |log| == |old(log)| + 1 && log[..|old(log)|] == old(log)
      ensures log[|old(log)|].slot == slot
    {
      log := log + [Request(offset, slot)];
      souts := souts + 1;
      offset := Bits.And(serverThreads - 1, offset + 1);
    }

    /** Posts a window of receives, then sends a window of requests. */
    method Begin()
      requires Valid() && posted == multiset{} && pending == 0 && unsent == windowSize && log == []
      modifies this
      ensures Valid() && routs == windowSize
      ensures View() == old(View()).(unsent := 0, posted := windowSize, sent := windowSize)
      ensures PostsWindow(posted, numBufs, windowSize)
      ensures forall r | 0 <= r < windowSize :: log[r].slot == r
    {
      for r := 0 to windowSize
        invariant Valid() && |posted| == r && log == old(log)
        invariant PostsWindow(posted, numBufs, r)
        invariant View() == old(View()).(posted := r)
      {
        posted := posted + multiset{r + numBufs};
        routs := routs + 1;
      }
      hide PostsWindow;
      ghost var window := posted;
      for i := 0 to windowSize
        invariant Valid() && |log| == i && routs == windowSize && posted == window
        invariant View() == old(View()).(unsent := windowSize - i, posted := windowSize, sent := i)
        invariant forall r | 0 <= r < i :: log[r].slot == r
      {
        PostRequest(i);
        unsent := unsent - 1;
      }
    }

    /** The network fills a receive. */
    method Deliver(wrId: nat)
      requires Valid() && wrId in posted
      modifies this`posted, this`pending
      ensures Valid() && View() == old(View()).(posted := old(View()).posted - 1, cq := old(View()).cq + 1)
      ensures posted == old(posted) - multiset{wrId}
    {
      posted := posted - multiset{wrId};
      pending := pending + 1;
    }

    /** A response: repost, then send again unless enough sends have completed. */
    method HandleReceive(a: nat)
      requires Valid() && numBufs <= a < 2 * numBufs && pending > 0
      modifies this
      ensures Valid() && routs == old(routs) && posted == old(posted) + multiset{a}
      ensures View() == Handled(old(View()), old(scnt) < iters) && scnt == old(scnt)
      ensures log[..|old(log)|] == old(log)
      ensures if old(scnt) < iters then |log| == |old(log)| + 1 && log[|old(log)|].slot == a - numBufs
              else log == old(log)
      ensures unsent == old(unsent)
    {
      rcnt := rcnt + 1;
      routs := routs - 1;
      pending := pending - 1;
      posted := posted + multiset{a};
      routs := routs + 1;
      if scnt < iters {
        PostRequest(a - numBufs);
      } else {
        stopped := stopped + 1;
      }
    }

    /** One completion of a batch. */
    method HandleCompletion(a: nat)
      requires Valid() && (numBufs <= a < 2 * numBufs ==> pending > 0)
      modifies this
      ensures Valid() && routs == old(routs) && unsent == old(unsent)
      ensures Follows(numBufs, iters, old(Books()), a, Books())
    {
      if a < numBufs {
        scnt := scnt + 1;
        souts := souts - 1;
      } else if a < 2 * numBufs {
        HandleReceive(a);
      }
    }

    /** The loop over a polled batch. */
    method HandleBatch(wc: seq<Completion>) returns (ghost m: nat)
      requires Valid() && |ReceiveIds(wc, numBufs)| <= pending
      modifies this
      ensures Valid() && routs == old(routs) && unsent == old(unsent)
      ensures Batch(wc, numBufs, iters, old(Books()), m, Books())
    {
      hide Valid, Batch, Follows, ReceiveIds;
      var i := 0;
      m := 0;
      NoCompletions(numBufs, iters, Books());
      assert wc[..0] == [];
      while i < |wc|
        invariant i <= |wc| && Valid() && routs == old(routs) && unsent == old(unsent)
        invariant Batch(wc[..i], numBufs, iters, old(Books()), m, Books())
      {
        MoreComing(wc, numBufs, iters, old(Books()), i, m, Books());
        ghost var d := Books();
        HandleCompletion(wc[i].wrId);
        BatchStep(wc, numBufs, iters, old(Books()), i, m, d, Books());
        m := if d.scnt < iters then i + 1 else m;
        i := i + 1;
      }
      assert wc[..i] == wc;
    }
  }

  /** A receive that the batch still names has been received. */
  lemma MoreComing(wc: seq<Completion>, numBufs: nat, iters: nat, c: Account, i: nat, m: nat, d: Account)
    requires i < |wc| && |ReceiveIds(wc, numBufs)| <= c.pending && Batch(wc[..i], numBufs, iters, c, m, d)
    ensures numBufs <= wc[i].wrId < 2 * numBufs ==> d.pending > 0
  {
    PrefixCounts(wc, numBufs, i + 1);
    NextCompletion(wc, numBufs, i);
  }
}
