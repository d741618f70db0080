/** The open-loop client: one thread sends, another polls completions, and they share two
    counters without a lock. The sender checks the counters, fills a send buffer, posts it and
    only then counts it, so a completion can be counted before its send is. */
module OpenLoop {
  import Arithmetic

  /** Where the sender is. */
  datatype Pc = Checking | Filling | Posting | Counting

  /** `slot` is the send buffer next in turn. `posted`, `completed` and `polled` count what the
      network card has been given, has finished and has reported; `inFlight` are the buffers of
      the sends not finished, oldest first. `rejected` counts posts that found the queue full. */
  datatype State = State(pc: Pc, sentCount: nat, scnt: nat, slot: nat,
                         posted: nat, completed: nat, polled: nat, inFlight: seq<nat>, rejected: nat)

  datatype Action = Send | Complete | Poll(n: nat) | CountCompletion

  const WORD: nat := 0x1_0000_0000_0000_0000

  /** Subtraction of `uint64_t`s. */
  function Minus(a: nat, b: nat): nat {
    (a - b) % WORD
  }

  predicate Enabled(s: State, a: Action) {
    match a
    case Send => true
    case Complete => s.inFlight != []
    case Poll(n) => s.scnt == s.polled && s.polled + n <= s.completed
    case CountCompletion => s.scnt < s.polled
  }

  function NextSlot(window: nat, slot: nat): nat {
    if slot == window - 1 then 0 else slot + 1
  }

  /** The sender's next step. */
  function Sending(depth: nat, window: nat, s: State): State {
    match s.pc
    case Checking => if Minus(s.sentCount, s.scnt) >= depth then s else s.(pc := Filling)
    case Filling => s.(pc := Posting)
    case Posting =>
      if s.posted - s.polled >= depth then s.(pc := Checking, rejected := s.rejected + 1)
      else s.(pc := Counting, posted := s.posted + 1, inFlight := s.inFlight + [s.slot])
    case Counting =>
      s.(pc := Checking, sentCount := s.sentCount + 1, slot := NextSlot(window, s.slot))
  }

  function Apply(depth: nat, window: nat, s: State, a: Action): State
    requires Enabled(s, a)
  {
    match a
    case Send => Sending(depth, window, s)
    case Complete => s.(inFlight := s.inFlight[1..], completed := s.completed + 1)
    case Poll(n) => s.(polled := s.polled + n)
    case CountCompletion => s.(scnt := s.scnt + 1)
  }

  predicate Legal(depth: nat, window: nat, s: State, steps: seq<Action>)
    decreases |steps|
  {
    steps == [] ||
    (Enabled(s, steps[0]) && Legal(depth, window, Apply(depth, window, s, steps[0]), steps[1..]))
  }

  function After(depth: nat, window: nat, s: State, steps: seq<Action>): State
    requires Legal(depth, window, s, steps)
    decreases |steps|
  {
    if steps == [] then s else After(depth, window, Apply(depth, window, s, steps[0]), steps[1..])
  }

  const START := State(Checking, 0, 0, 0, 0, 0, 0, [], 0)

  ghost predicate Reachable(depth: nat, window: nat, s: State) {
    exists steps :: Legal(depth, window, START, steps) && After(depth, window, START, steps) == s
  }

  // ---- the counters ----

  ghost predicate Inv(depth: nat, s: State) {
    && s.scnt <= s.polled <= s.completed <= s.posted <= s.scnt + depth
    && s.sentCount == (if s.pc.Counting? then s.posted - 1 else s.posted)
    && |s.inFlight| == s.posted - s.completed
    && (s.pc.Filling? || s.pc.Posting? ==> s.posted < s.scnt + depth)
    && s.rejected == 0
  }

  lemma InvStep(depth: nat, window: nat, s: State, a: Action)
    requires depth < WORD && Inv(depth, s) && Enabled(s, a)
    ensures Inv(depth, Apply(depth, window, s, a))
  {
  }

  lemma {:induction false} InvHolds(depth: nat, window: nat, s: State, steps: seq<Action>)
    requires depth < WORD && Inv(depth, s) && Legal(depth, window, s, steps)
    ensures Inv(depth, After(depth, window, s, steps))
    decreases |steps|
  {
    if steps != [] {
      InvStep(depth, window, s, steps[0]);
      InvHolds(depth, window, Apply(depth, window, s, steps[0]), steps[1..]);
    }
  }

  /** Whatever the interleaving, no more than `depth` sends are posted beyond the completions
      counted, no post finds the queue full, and where the sender compares the counters the
      difference is the number of sends outstanding: it has not wrapped. */
  lemma FlowControlHolds(depth: nat, window: nat, s: State)
    requires depth < WORD && Reachable(depth, window, s)
    ensures s.scnt <= s.posted <= s.scnt + depth && s.rejected == 0
    ensures s.pc.Checking? ==> Minus(s.sentCount, s.scnt) == s.posted - s.scnt
  {
    var steps :| Legal(depth, window, START, steps) && After(depth, window, START, steps) == s;
    InvHolds(depth, window, START, steps);
  }

  // ---- the buffers ----

  /** Sends take the buffers in turn, and the oldest completes first. */
  ghost predicate InTurn(window: nat, s: State)
    requires window > 0
  {
    && s.slot == s.sentCount % window
    && s.completed <= s.posted && |s.inFlight| == s.posted - s.completed
    && forall j | 0 <= j < |s.inFlight| :: s.inFlight[j] == (s.completed + j) % window
  }

  lemma NextInTurn(window: nat, k: nat)
    requires window > 0
    ensures (k + 1) % window == NextSlot(window, k % window)
  {
    Arithmetic.RemainderSucc(k, window);
  }

  lemma InTurnStep(depth: nat, window: nat, s: State, a: Action)
    requires window > 0 && depth < WORD && Inv(depth, s) && InTurn(window, s) && Enabled(s, a)
    ensures InTurn(window, Apply(depth, window, s, a))
  {
    NextInTurn(window, s.sentCount);
    hide Minus;
    var t := Apply(depth, window, s, a);
    if a.Complete? {
      forall j | 0 <= j < |t.inFlight| ensures t.inFlight[j] == (t.completed + j) % window {
        assert t.inFlight[j] == s.inFlight[j + 1];
      }
    }
  }

  lemma {:induction false} InTurnHolds(depth: nat, window: nat, s: State, steps: seq<Action>)
    requires window > 0 && depth < WORD && Inv(depth, s) && InTurn(window, s)
    requires Legal(depth, window, s, steps)
    ensures InTurn(window, After(depth, window, s, steps))
    decreases |steps|
  {
    if steps != [] {
      InvStep(depth, window, s, steps[0]);
      InTurnStep(depth, window, s, steps[0]);
      hide InTurn, Inv, Enabled, Apply;
      InTurnHolds(depth, window, Apply(depth, window, s, steps[0]), steps[1..]);
    }
  }

  lemma Apart(a: nat, b: nat, window: nat)
    requires window > 0 && a < b < a + window
    ensures a % window != b % window
  {
    Arithmetic.MulMono(a / window, b / window, window);
    Arithmetic.MulMono(b / window, a / window, window);
    assert a == (a / window) * window + a % window && b == (b / window) * window + b % window;
  }

  /** A buffer being filled is one whose last send has finished. */
  ghost predicate SlotFree(s: State) {
    s.pc.Filling? ==> s.slot !in s.inFlight
  }

  lemma ReachableInTurn(depth: nat, window: nat, s: State)
    requires window > 0 && depth < WORD && Reachable(depth, window, s)
    ensures Inv(depth, s) && InTurn(window, s)
  {
    var steps :| Legal(depth, window, START, steps) && After(depth, window, START, steps) == s;
    InvHolds(depth, window, START, steps);
    InTurnHolds(depth, window, START, steps);
  }

  lemma SlotIsFree(depth: nat, window: nat, s: State)
    requires 0 < depth <= window && depth < WORD && Reachable(depth, window, s)
    ensures SlotFree(s)
  {
    ReachableInTurn(depth, window, s);
    if s.pc.Filling? {
      forall j | 0 <= j < |s.inFlight| ensures s.inFlight[j] != s.slot {
        Apart(s.completed + j, s.posted, window);
      }
    }
  }

  lemma {:induction false} OneMore(depth: nat, window: nat, s: State, steps: seq<Action>, a: Action)
    requires Legal(depth, window, s, steps) && Enabled(After(depth, window, s, steps), a)
    ensures Legal(depth, window, s, steps + [a])
    ensures After(depth, window, s, steps + [a]) == Apply(depth, window, After(depth, window, s, steps), a)
    decreases |steps|
  {
    hide Enabled, Apply;
    if steps == [] {
      assert [a][1..] == [];
    } else {
      assert (steps + [a])[1..] == steps[1..] + [a];
      OneMore(depth, window, Apply(depth, window, s, steps[0]), steps[1..], a);
    }
  }

  lemma Next(depth: nat, window: nat, s: State, a: Action)
    requires Reachable(depth, window, s) && Enabled(s, a)
    ensures Reachable(depth, window, Apply(depth, window, s, a))
  {
    hide Enabled, Apply;
    var steps :| Legal(depth, window, START, steps) && After(depth, window, START, steps) == s;
    OneMore(depth, window, START, steps, a);
  }

  /** `k` sends go out before any of them completes. */
  lemma {:induction false} Burst(depth: nat, window: nat, k: nat) returns (s: State)
    requires window > 0 && k <= depth < WORD
    ensures Reachable(depth, window, s)
    ensures s.pc.Checking? && s.posted == k && s.completed == s.polled == s.scnt == 0
  {
    if k == 0 {
      s := START;
      assert Legal(depth, window, START, []) && After(depth, window, START, []) == START;
    } else {
      s := Burst(depth, window, k - 1);
      ReachableInTurn(depth, window, s);
      hide Reachable;
      var s1 := s.(pc := Filling);
      assert Sending(depth, window, s) == s1;
      Next(depth, window, s, Send);
      var s2 := s.(pc := Posting);
      Next(depth, window, s1, Send);
      var s3 := s.(pc := Counting, posted := k, inFlight := s.inFlight + [s.slot]);
      Next(depth, window, s2, Send);
      Next(depth, window, s3, Send);
      s := Apply(depth, window, s3, Send);
    }
  }

  /** With fewer buffers than the send queue is deep, a buffer is filled again while its send is in
      flight. Where sends are inline the payload was copied when it was posted. */
  lemma SlotOverwritten(depth: nat, window: nat) returns (s: State)
    requires 0 < window < depth < WORD
    ensures Reachable(depth, window, s) && !SlotFree(s)
  {
    var t := Burst(depth, window, window);
    FlowControlHolds(depth, window, t);
    ReachableInTurn(depth, window, t);
    Next(depth, window, t, Send);
    s := t.(pc := Filling);
    assert Apply(depth, window, t, Send) == s;
    Arithmetic.DivUnique(window, window, 1, 0);
    Arithmetic.DivUnique(0, window, 0, 0);
    assert s.inFlight[0] == s.slot;
  }

  /** Send buffers are safe in every run exactly when the window covers the send queue. */
  lemma SlotsAreSafeIff(depth: nat, window: nat)
    requires 0 < window && 0 < depth < WORD
    ensures (forall s | Reachable(depth, window, s) :: SlotFree(s)) <==> depth <= window
  {
    if depth <= window {
      forall s | Reachable(depth, window, s) ensures SlotFree(s) {
        SlotIsFree(depth, window, s);
      }
    } else {
      var s := SlotOverwritten(depth, window);
    }
  }

  /** The sender goes on to fill a buffer exactly when fewer than `depth` sends are outstanding,
      and then posts it. */
  lemma SendsIff(depth: nat, window: nat, s: State)
    requires depth < WORD && Reachable(depth, window, s) && s.pc.Checking?
    ensures Apply(depth, window, s, Send).pc.Filling? <==> s.posted < s.scnt + depth
    ensures s.posted < s.scnt + depth ==>
              Legal(depth, window, s, [Send, Send, Send, Send])
              && var t := After(depth, window, s, [Send, Send, Send, Send]);
                 t.pc.Checking? && t.posted == s.posted + 1 && t.inFlight == s.inFlight + [s.slot]
  {
    var steps :| Legal(depth, window, START, steps) && After(depth, window, START, steps) == s;
    InvHolds(depth, window, START, steps);
    hide Reachable;
    if s.posted < s.scnt + depth {
      var s1 := Apply(depth, window, s, Send);
      var s2 := Apply(depth, window, s1, Send);
      var s3 := Apply(depth, window, s2, Send);
      var s4 := Apply(depth, window, s3, Send);
      FourSteps(depth, window, s, s1, s2, s3, s4);
    }
  }

  lemma FourSteps(depth: nat, window: nat, s: State, s1: State, s2: State, s3: State, s4: State)
    requires s1 == Apply(depth, window, s, Send) && s2 == Apply(depth, window, s1, Send)
    requires s3 == Apply(depth, window, s2, Send) && s4 == Apply(depth, window, s3, Send)
    ensures Legal(depth, window, s, [Send, Send, Send, Send])
    ensures After(depth, window, s, [Send, Send, Send, Send]) == s4
  {
    hide Sending;
    assert [Send, Send, Send, Send][1..] == [Send, Send, Send];
    assert [Send, Send, Send][1..] == [Send, Send] && [Send, Send][1..] == [Send] && [Send][1..] == [];
    assert Legal(depth, window, s3, [Send]) && After(depth, window, s3, [Send]) == s4;
    assert Legal(depth, window, s2, [Send, Send]) && After(depth, window, s2, [Send, Send]) == s4;
    assert Legal(depth, window, s1, [Send, Send, Send]) && After(depth, window, s1, [Send, Send, Send]) == s4;
  }

  /** Any number of sends can be posted, completed and counted. */
  lemma {:induction false} AnyNumber(depth: nat, window: nat, n: nat) returns (s: State)
    requires 0 < window && 0 < depth < WORD
    ensures Reachable(depth, window, s) && s.pc.Checking? && s.inFlight == []
    ensures s.posted == s.completed == s.polled == s.scnt == n
  {
    hide Reachable, Minus;
    if n == 0 {
      s := START;
      StartIsReachable(depth, window);
    } else {
      s := AnyNumber(depth, window, n - 1);
      s := SendAndCount(depth, window, s);
    }
  }

  lemma StartIsReachable(depth: nat, window: nat)
    ensures Reachable(depth, window, START)
  {
    assert Legal(depth, window, START, []);
  }

  lemma SendAndCount(depth: nat, window: nat, s: State) returns (t: State)
    requires 0 < window && 0 < depth < WORD && Reachable(depth, window, s) && s.pc.Checking? && s.inFlight == []
    requires s.posted == s.completed == s.polled == s.scnt
    ensures Reachable(depth, window, t) && t.pc.Checking? && t.inFlight == []
    ensures t.posted == t.completed == t.polled == t.scnt == s.scnt + 1
  {
    FlowControlHolds(depth, window, s);
    hide Reachable, Minus, NextSlot;
    var s1 := s.(pc := Filling);
    Next(depth, window, s, Send);
    var s2 := s.(pc := Posting);
    Next(depth, window, s1, Send);
    var s3 := s.(pc := Counting, posted := s.posted + 1, inFlight := [s.slot]);
    assert s.inFlight + [s.slot] == [s.slot];
    Next(depth, window, s2, Send);
    Next(depth, window, s3, Send);
    var s4 := Sending(depth, window, s3);
    Next(depth, window, s4, Complete);
    assert s4.inFlight[1..] == [];
    var s5 := Apply(depth, window, s4, Complete);
    Next(depth, window, s5, Poll(1));
    var s6 := Apply(depth, window, s5, Poll(1));
    Next(depth, window, s6, CountCompletion);
    t := Apply(depth, window, s6, CountCompletion);
  }

  /** The bound on outstanding sends is reached. */
  lemma BoundIsReached(depth: nat, window: nat) returns (s: State)
    requires 0 < window && depth < WORD
    ensures Reachable(depth, window, s) && s.posted == s.scnt + depth
  {
    s := Burst(depth, window, depth);
  }
}
