/** The client's skewed priority tables: a coin per entry decides between the hot classes, the
    first `hot` of them, and the cold ones; each group is gone through in turn. */
module PriorityTable {
  import opened Arithmetic

  const RANGE: nat := 0x1_0000

  /** The cursors are `uint16_t`s. */
  function Successor(x: nat): nat {
    if x == RANGE - 1 then 0 else x + 1
  }

  function NextHot(hot: nat, cursor: nat): nat {
    if cursor == hot - 1 then 0 else Successor(cursor)
  }

  function NextCold(hot: nat, priorities: nat, cursor: nat): nat {
    if cursor == priorities - 1 then hot else Successor(cursor)
  }

  function Heads(coins: seq<bool>): (n: nat)
    ensures n <= |coins|
  {
    if coins == [] then 0 else Heads(coins[..|coins| - 1]) + if coins[|coins| - 1] then 1 else 0
  }

  /** The cursors after `n` steps. */
  function HotAt(hot: nat, n: nat): nat {
    if n == 0 then 0 else NextHot(hot, HotAt(hot, n - 1))
  }

  function ColdAt(hot: nat, priorities: nat, n: nat): nat {
    if n == 0 then hot else NextCold(hot, priorities, ColdAt(hot, priorities, n - 1))
  }

  /** Entry `k` of the table: one more of the group its coin chose, counted along the coins
      before it. */
  function Entry(coins: seq<bool>, hot: nat, priorities: nat, k: nat): nat
    requires k < |coins|
  {
    var heads := Heads(coins[..k]);
    if coins[k] then HotAt(hot, heads) else ColdAt(hot, priorities, k - heads)
  }

  /** `N - 1 - x` in a `uint16_t`. */
  function Mirror(priorities: nat, x: nat): nat {
    (priorities - 1 - x) % RANGE
  }

  /** An entry of the table, mirrored or not. */
  function TableEntry(coins: seq<bool>, hot: nat, priorities: nat, mirrored: bool, k: nat): nat
    requires k < |coins|
  {
    var e := Entry(coins, hot, priorities, k);
    if mirrored then Mirror(priorities, e) else e
  }

  /** Fills the table, mirrored or not. */
  method Fill(table: array<nat>, coins: seq<bool>, hot: nat, priorities: nat, mirrored: bool)
    requires |coins| == table.Length
    modifies table
    ensures forall k | 0 <= k < table.Length ::
              table[k] == TableEntry(coins, hot, priorities, mirrored, k)
  {
    var twentyPercent, eightyPercent := 0, hot;
    for i := 0 to table.Length
      invariant twentyPercent == HotAt(hot, Heads(coins[..i]))
      invariant eightyPercent == ColdAt(hot, priorities, i - Heads(coins[..i]))
      invariant forall k | 0 <= k < i ::
                  table[k] == TableEntry(coins, hot, priorities, mirrored, k)
    {
      assert coins[..i + 1][..i] == coins[..i];
      if coins[i] {
        table[i] := if mirrored then Mirror(priorities, twentyPercent) else twentyPercent;
        twentyPercent := NextHot(hot, twentyPercent);
      } else {
        table[i] := if mirrored then Mirror(priorities, eightyPercent) else eightyPercent;
        eightyPercent := NextCold(hot, priorities, eightyPercent);
      }
    }
  }

  lemma {:induction false} HotIs(hot: nat, n: nat)
    requires 0 < hot < RANGE
    ensures HotAt(hot, n) == n % hot
  {
    if n == 0 {
      DivUnique(0, hot, 0, 0);
    } else {
      HotIs(hot, n - 1);
      RemainderSucc(n - 1, hot);
    }
  }

  lemma ColdStep(hot: nat, priorities: nat, r: nat)
    requires hot < priorities < RANGE && r < priorities - hot
    ensures NextCold(hot, priorities, hot + r) == hot + if r == priorities - hot - 1 then 0 else r + 1
  {
  }

  lemma {:induction false} ColdIs(hot: nat, priorities: nat, n: nat)
    requires hot < priorities < RANGE
    ensures ColdAt(hot, priorities, n) == hot + n % (priorities - hot)
  {
    var cold: nat := priorities - hot;
    hide NextCold;
    if n == 0 {
      DivUnique(0, cold, 0, 0);
    } else {
      ColdIs(hot, priorities, n - 1);
      RemainderSucc(n - 1, cold);
      ColdStep(hot, priorities, (n - 1) % cold);
    }
  }

  /** Where every entry names a class. */
  ghost predicate InRange(hot: nat, priorities: nat, mirrored: bool) {
    forall coins, k | 0 <= k < |coins| :: TableEntry(coins, hot, priorities, mirrored, k) < priorities
  }

  /** The cursors stay within sixteen bits. */
  lemma {:induction false} HotFits(hot: nat, n: nat)
    ensures HotAt(hot, n) < RANGE
  {
    if n > 0 {
      HotFits(hot, n - 1);
    }
  }

  lemma {:induction false} ColdFits(hot: nat, priorities: nat, n: nat)
    requires hot < RANGE
    ensures ColdAt(hot, priorities, n) < RANGE
  {
    if n > 0 {
      ColdFits(hot, priorities, n - 1);
    }
  }

  /** Mirroring keeps what is in range in range, and what is out of it out. */
  lemma MirrorInRange(priorities: nat, x: nat)
    requires priorities < RANGE && x < RANGE
    ensures Mirror(priorities, x) < priorities <==> x < priorities
    ensures x < priorities ==> Mirror(priorities, x) == priorities - 1 - x
  {
  }

  lemma MirroredInRange(coins: seq<bool>, hot: nat, priorities: nat, mirrored: bool, k: nat)
    requires priorities < RANGE && hot < RANGE && k < |coins|
    ensures TableEntry(coins, hot, priorities, mirrored, k) < priorities
       <==> Entry(coins, hot, priorities, k) < priorities
  {
    HotFits(hot, Heads(coins[..k]));
    ColdFits(hot, priorities, k - Heads(coins[..k]));
    MirrorInRange(priorities, Entry(coins, hot, priorities, k));
  }

  lemma {:induction false} Runaway(n: nat)
    requires n < RANGE
    ensures HotAt(0, n) == n
  {
    if n > 0 {
      Runaway(n - 1);
    }
  }

  lemma {:induction false} AllHeads(coins: seq<bool>)
    requires forall k | 0 <= k < |coins| :: coins[k]
    ensures Heads(coins) == |coins|
  {
    if coins != [] {
      AllHeads(coins[..|coins| - 1]);
    }
  }

  /** The coins never lead to an entry out of range, in either table, exactly when there are hot
      classes and cold ones. */
  lemma InRangeIff(hot: nat, priorities: nat, mirrored: bool)
    requires priorities < RANGE && hot < RANGE
    ensures InRange(hot, priorities, mirrored) <==> 0 < hot < priorities
  {
    if 0 < hot < priorities {
      forall coins: seq<bool>, k | 0 <= k < |coins|
        ensures TableEntry(coins, hot, priorities, mirrored, k) < priorities {
        HotIs(hot, Heads(coins[..k]));
        ColdIs(hot, priorities, k - Heads(coins[..k]));
        MirroredInRange(coins, hot, priorities, mirrored, k);
      }
    } else {
      var coins, k := OutOfRange(hot, priorities);
      MirroredInRange(coins, hot, priorities, mirrored, k);
    }
  }

  lemma OutOfRange(hot: nat, priorities: nat) returns (coins: seq<bool>, k: nat)
    requires priorities < RANGE && (hot == 0 || hot >= priorities)
    ensures k < |coins| && Entry(coins, hot, priorities, k) >= priorities
  {
    if hot == 0 {
      coins, k := seq(priorities + 1, _ => true), priorities;
      AllHeads(coins[..priorities]);
      Runaway(priorities);
    } else {
      coins, k := [false], 0;
    }
  }

  /** The modes that make a fifth of the classes hot need five of them; the one with twenty hot
      classes needs twenty-one. */
  lemma EnoughPriorities(priorities: nat, mirrored: bool)
    requires priorities < RANGE
    ensures InRange(priorities / 5, priorities, mirrored) <==> priorities >= 5
    ensures InRange(20, priorities, mirrored) <==> priorities > 20
  {
    InRangeIff(priorities / 5, priorities, mirrored);
    InRangeIff(20, priorities, mirrored);
  }

  // ---- balance ----

  /** How often the first `m` entries name class `c`. */
  function Count(coins: seq<bool>, hot: nat, priorities: nat, m: nat, c: nat): nat
    requires m <= |coins|
  {
    if m == 0 then 0
    else Count(coins, hot, priorities, m - 1, c) + if Entry(coins, hot, priorities, m - 1) == c then 1 else 0
  }

  /** The share of place `c` when `n` go round `size` places in turn. */
  function Share(n: nat, size: nat, c: nat): nat
    requires size > 0
  {
    n / size + if c < n % size then 1 else 0
  }

  /** The place whose turn it is. */
  function Turn(n: nat, size: nat): (r: nat)
    requires size > 0
    ensures r < size
  {
    n % size
  }

  lemma EntryIs(coins: seq<bool>, hot: nat, priorities: nat, k: nat)
    requires 0 < hot < priorities < RANGE && k < |coins|
    ensures var heads := Heads(coins[..k]);
            Entry(coins, hot, priorities, k)
            == if coins[k] then Turn(heads, hot) else hot + Turn(k - heads, priorities - hot)
  {
    HotIs(hot, Heads(coins[..k]));
    ColdIs(hot, priorities, k - Heads(coins[..k]));
  }

  lemma ShareNext(n: nat, size: nat, c: nat)
    requires c < size
    ensures Share(n + 1, size, c) == Share(n, size, c) + if Turn(n, size) == c then 1 else 0
    ensures Share(0, size, c) == 0
  {
    DivSucc(n, size);
    DivUnique(0, size, 0, 0);
  }

  /** After any prefix a class has had its exact share of its group's entries. */
  lemma {:induction false} CountIsShare(coins: seq<bool>, hot: nat, priorities: nat, m: nat, c: nat)
    requires 0 < hot < priorities < RANGE && c < priorities && m <= |coins|
    ensures Count(coins, hot, priorities, m, c)
         == if c < hot then Share(Heads(coins[..m]), hot, c)
            else Share(m - Heads(coins[..m]), priorities - hot, c - hot)
  {
    hide Share, Turn, Entry;
    var hotPlace, coldPlace: nat := if c < hot then c else 0, if c < hot then 0 else c - hot;
    if m == 0 {
      ShareNext(0, hot, hotPlace);
      ShareNext(0, priorities - hot, coldPlace);
    } else {
      CountIsShare(coins, hot, priorities, m - 1, c);
      assert coins[..m][..m - 1] == coins[..m - 1];
      EntryIs(coins, hot, priorities, m - 1);
      ShareNext(Heads(coins[..m - 1]), hot, hotPlace);
      ShareNext(m - 1 - Heads(coins[..m - 1]), priorities - hot, coldPlace);
    }
  }

  /** How often the first `m` entries of the table name class `c`. */
  function TableCount(coins: seq<bool>, hot: nat, priorities: nat, mirrored: bool, m: nat, c: nat): nat
    requires m <= |coins|
  {
    if m == 0 then 0
    else TableCount(coins, hot, priorities, mirrored, m - 1, c)
         + if TableEntry(coins, hot, priorities, mirrored, m - 1) == c then 1 else 0
  }

  /** The mirrored table names a class as often as the plain one names its mirror image. */
  lemma {:induction false} CountMirrored(coins: seq<bool>, hot: nat, priorities: nat, mirrored: bool, m: nat,
                                         c: nat)
    requires 0 < hot < priorities < RANGE && c < priorities && m <= |coins|
    ensures TableCount(coins, hot, priorities, mirrored, m, c)
         == Count(coins, hot, priorities, m, if mirrored then priorities - 1 - c else c)
  {
    if m > 0 {
      CountMirrored(coins, hot, priorities, mirrored, m - 1, c);
      HotIs(hot, Heads(coins[..m - 1]));
      ColdIs(hot, priorities, m - 1 - Heads(coins[..m - 1]));
      MirrorInRange(priorities, Entry(coins, hot, priorities, m - 1));
    }
  }

  /** The hot classes are the first, or in the mirrored table the last. */
  predicate IsHot(hot: nat, priorities: nat, mirrored: bool, c: nat) {
    if mirrored then priorities - 1 - c < hot else c < hot
  }

  /** Whatever the coins, after any prefix of either table two classes of the same group have
      been named equally often, give or take one. */
  lemma Balanced(coins: seq<bool>, hot: nat, priorities: nat, mirrored: bool, m: nat, c: nat, d: nat)
    requires 0 < hot < priorities < RANGE && c < priorities && d < priorities && m <= |coins|
    requires IsHot(hot, priorities, mirrored, c) <==> IsHot(hot, priorities, mirrored, d)
    ensures -1 <= TableCount(coins, hot, priorities, mirrored, m, c)
                  - TableCount(coins, hot, priorities, mirrored, m, d) <= 1
  {
    CountMirrored(coins, hot, priorities, mirrored, m, c);
    CountMirrored(coins, hot, priorities, mirrored, m, d);
    CountIsShare(coins, hot, priorities, m, if mirrored then priorities - 1 - c else c);
    CountIsShare(coins, hot, priorities, m, if mirrored then priorities - 1 - d else d);
  }
}
