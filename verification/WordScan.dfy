/** The scans of the notification byte vector, which look at eight bytes or more at a time,
    and what a byte-by-byte search would have found. */
module WordScan {
  import opened Bits
  import opened Words
  import opened Arithmetic

  function RoundUp(n: nat, size: nat): nat
    requires size > 0
  {
    (n + size - 1) / size * size
  }

  /** `n ^ 7`: where the vector keeps the byte of queue `n` for the scans that do not swap. */
  function Flip(n: nat): (m: nat)
    ensures m == n / 8 * 8 + (7 - n % 8) && m / 8 == n / 8
  {
    XorSeven(n);
    Xor(n, 7)
  }

  /** On a word boundary. */
  predicate Aligned(i: nat) {
    i % 8 == 0
  }

  lemma AlignedAfter(i: nat, words: nat)
    requires Aligned(i)
    ensures Aligned(i + 8 * words)
  {
  }

  lemma FlipIn(i: nat, r: nat)
    requires Aligned(i) && r < 8
    ensures Flip(i + r) == i + (7 - r)
  {
    DivUnique(i + r, 8, i / 8, r);
  }

  lemma FlipTwice(n: nat)
    ensures Flip(Flip(n)) == n
  {
    var q, r := n / 8, n % 8;
    AlignedAfter(0, q);
    FlipIn(8 * q, r);
    FlipIn(8 * q, 7 - r);
  }

  /** A scan in steps of `size` that has not passed the last queue has a whole step left;
      one that has is at the end. */
  lemma Rounding(n: nat, size: nat, steps: nat)
    requires size > 0 && Rounds(steps, size) <= RoundUp(n, size)
    ensures Rounds(steps, size) < n ==> Rounds(steps + 1, size) <= RoundUp(n, size)
    ensures Rounds(steps, size) >= n ==> Rounds(steps, size) == RoundUp(n, size)
    ensures Rounds(steps + 1, size) == Rounds(steps, size) + size
    ensures n <= RoundUp(n, size)
  {
    var q := (n + size - 1) / size;
    assert n + size - 1 == q * size + (n + size - 1) % size;
    RoundsIsProduct(steps, size);
    RoundsIsProduct(steps + 1, size);
    MulMono(q, steps, size);
    MulMono(steps, q, size);
    assert (steps + 1) * size == steps * size + size;
  }

  lemma WholeWords(n: nat, words: nat)
    requires words > 0
    ensures Aligned(RoundUp(n, 8 * words))
  {
    var q := (n + 8 * words - 1) / (8 * words);
    assert q * (8 * words) == 8 * (q * words);
    AlignedAfter(0, q * words);
  }

  /** Byte `n` is the first that is set. */
  ghost predicate FirstSet(v: seq<Byte>, n: nat) {
    n < |v| && v[n] != 0 && forall k | 0 <= k < n :: v[k] == 0
  }

  /** Flipping stays within a word. */
  lemma FlipWithin(n: nat, size: nat)
    requires Aligned(size) && n < size
    ensures Flip(n) < size
  {
    var q, c := n / 8, size / 8;
    assert size == 8 * c && n == 8 * q + n % 8;
    hide Flip;
    assert q < c && Flip(n) <= 8 * q + 7;
  }

  /** Queue `n` is the first whose byte is set, bytes being kept flipped. */
  ghost predicate FirstFlipped(v: seq<Byte>, n: nat)
  {
    && n < |v| && Flip(n) < |v| && v[Flip(n)] != 0
    && forall k | 0 <= k < n :: Flip(k) < |v| && v[Flip(k)] == 0
  }

  lemma ZeroJoin(v: seq<Byte>, a: nat, b: nat, c: nat)
    requires a <= b <= c <= |v| && AllZero(v[a..b]) && AllZero(v[b..c])
    ensures AllZero(v[a..c])
  {
    assert v[a..c] == v[a..b] + v[b..c];
  }

  lemma ZeroBefore(v: seq<Byte>, i: nat, j: nat)
    requires i <= j <= |v| && AllZero(v[..i]) && AllZero(v[i..j])
    ensures AllZero(v[..j])
  {
    assert v[..i] == v[0..i] && v[..j] == v[0..j];
    ZeroJoin(v, 0, i, j);
  }

  lemma FirstAfter(v: seq<Byte>, i: nat, k: nat)
    requires i + k < |v| && v[i + k] != 0 && AllZero(v[..i]) && AllZero(v[i..i + k])
    ensures FirstSet(v, i + k)
  {
    ZeroBefore(v, i, i + k);
    assert forall j | 0 <= j < i + k :: v[j] == v[..i + k][j];
  }

  /** One step of the `lzcnt` scan. */
  lemma SwappedWord(v: seq<Byte>, i: nat)
    requires i + 8 <= |v| && AllZero(v[..i])
    ensures var z := Lzcnt(Htonll(Load(v[i..i + 8])));
            if z == 64 then AllZero(v[..i + 8]) else 0 <= z < 64 && FirstSet(v, i + z / 8)
  {
    var word := v[i..i + 8];
    hide Lzcnt, Load, Htonll, AllZero, FirstSet;
    LzcntOfZero(word);
    if AllZero(word) {
      ZeroBefore(v, i, i + 8);
    } else {
      var k := FirstNonZero(word);
      LzcntOfSwapped(word, k);
      assert word[..k] == v[i..i + k];
      FirstAfter(v, i, k);
    }
  }

  /** Finds the first byte set among those of the queues, rounded up to whole words. */
  method FindByLzcnt(buf: array<Byte>, base: nat, numQueues: nat)
      returns (foundWork: bool, connIndex: nat)
    requires base + RoundUp(numQueues, 8) <= buf.Length
    ensures var v := buf[base..base + RoundUp(numQueues, 8)];
            if foundWork then FirstSet(v, connIndex) else AllZero(v)
  {
    hide RoundUp, AllZero, FirstSet, Load, Htonll, Lzcnt;
    ghost var v: seq<Byte> := buf[base..base + RoundUp(numQueues, 8)];
    ghost var steps := 0;
    var i := 0;
    NothingBefore(v);
    while i < numQueues
      invariant i == Rounds(steps, 8) && i <= RoundUp(numQueues, 8)
      invariant AllZero(v[..i])
    {
      Rounding(numQueues, 8, steps);
      var value := Htonll(Load(buf[base + i..base + i + 8]));
      var leadingZeros := Lzcnt(value);
      SliceOfSlice(buf[..], base, base + |v|, i, i + 8);
      assert buf[..][base..base + |v|] == v && buf[base + i..base + i + 8] == buf[..][base + i..base + i + 8];
      SwappedWord(v, i);
      if leadingZeros != 64 {
        return true, i + leadingZeros / 8;
      }
      i := i + 8;
      steps := steps + 1;
    }
    Rounding(numQueues, 8, steps);
    assert v[..i] == v;
    return false, 0;
  }

  /** What a vector instruction counts, lane by lane. */
  function Lanes(values: seq<Byte>): (counts: seq<int>)
    requires |values| % 8 == 0
    ensures |counts| == |values| / 8
  {
    seq(|values| / 8, j requires 0 <= j < |values| / 8 => Lzcnt(Load(values[8 * j..8 * j + 8])))
  }

  /** One lane, whose bytes start at `i`. */
  lemma PlainWord(v: seq<Byte>, i: nat, h: nat)
    requires Aligned(i) && h < 8 && i + 8 <= |v|
    requires v[i..i + 8][h] != 0 && AllZero(v[i..i + 8][h + 1..])
    ensures Flip(i + (7 - h)) < |v| && v[Flip(i + (7 - h))] != 0
    ensures forall k | i <= k < i + (7 - h) :: Flip(k) < |v| && v[Flip(k)] == 0
  {
    hide Flip, Aligned;
    var word := v[i..i + 8];
    FlipIn(i, 7 - h);
    forall k | i <= k < i + (7 - h) ensures Flip(k) < |v| && v[Flip(k)] == 0 {
      FlipIn(i, k - i);
      assert v[Flip(k)] == word[7 - (k - i)];
      assert word[h + 1..][7 - (k - i) - (h + 1)] == word[7 - (k - i)];
    }
  }

  /** What is zero up to a word boundary is zero flipped. */
  lemma FlippedBefore(v: seq<Byte>, s: nat)
    requires Aligned(s) && s <= |v| && AllZero(v[..s])
    ensures forall k | 0 <= k < s :: Flip(k) < |v| && v[Flip(k)] == 0
  {
    forall k | 0 <= k < s ensures Flip(k) < |v| && v[Flip(k)] == 0 {
      FlipWithin(k, s);
      assert v[..s][Flip(k)] == 0;
    }
  }

  lemma FirstInLane(v: seq<Byte>, s: nat)
    requires Aligned(s) && Aligned(|v|) && s + 8 <= |v| && AllZero(v[..s]) && !AllZero(v[s..s + 8])
    ensures var z := Lzcnt(Load(v[s..s + 8])); 0 <= z < 64 && FirstFlipped(v, s + z / 8)
  {
    var word := v[s..s + 8];
    var h := LastNonZero(word);
    LzcntOfLoad(word, h);
    PlainWord(v, s, h);
    FlippedBefore(v, s);
    hide Lzcnt, Load, AllZero, Flip;
  }

  /** Lane `j` of the block at `i`, those before it being zero. */
  lemma PlainLane(v: seq<Byte>, i: nat, n: nat, j: nat)
    requires Aligned(i) && Aligned(|v|) && Aligned(n) && i + n <= |v| && 8 * j < n
    requires AllZero(v[..i + 8 * j])
    ensures var z := Lanes(v[i..i + n])[j];
            if z == 64 then AllZero(v[..i + 8 * j + 8])
            else 0 <= z < 64 && FirstFlipped(v, i + 8 * j + z / 8)
  {
    var s := i + 8 * j;
    hide Aligned;
    LaneIs(v, i, n, j);
    AlignedAfter(i, j);
    LzcntOfZero(v[s..s + 8]);
    hide Lzcnt, Load, AllZero, Lanes, FirstFlipped;
    if AllZero(v[s..s + 8]) {
      ZeroBefore(v, s, s + 8);
    } else {
      FirstInLane(v, s);
    }
  }

  lemma LaneIs(v: seq<Byte>, i: nat, n: nat, j: nat)
    requires Aligned(n) && i + n <= |v| && 8 * j < n
    ensures 8 * j + 8 <= n
    ensures Lanes(v[i..i + n])[j] == Lzcnt(Load(v[i + 8 * j..i + 8 * j + 8]))
  {
    assert 8 * j + 8 <= n;
    SliceOfSlice(v, i, i + n, 8 * j, 8 * j + 8);
  }

  lemma SliceOfSlice(v: seq<Byte>, a: nat, b: nat, c: nat, d: nat)
    requires a <= b <= |v| && c <= d <= b - a
    ensures v[a..b][c..d] == v[a + c..a + d]
  {
    forall k | 0 <= k < d - c ensures v[a..b][c..d][k] == v[a + c..a + d][k] {
      assert v[a..b][c..d][k] == v[a..b][c + k] == v[a + c + k];
    }
  }

  /** Finds the first queue whose flipped byte is set: 512 bits at a time with eight lanes,
      256 with four. */
  method FindByLanes(buf: array<Byte>, lanes: nat, numQueues: nat)
      returns (foundWork: bool, connIndex: nat)
    requires (lanes == 4 || lanes == 8) && RoundUp(numQueues, 8 * lanes) <= buf.Length
    ensures var v := buf[..RoundUp(numQueues, 8 * lanes)];
            if foundWork then FirstFlipped(v, connIndex) else AllZero(v)
  {
    hide RoundUp, AllZero, FirstFlipped, Lanes;
    var n := 8 * lanes;
    ghost var v: seq<Byte> := buf[..RoundUp(numQueues, n)];
    ghost var steps := 0;
    var i := 0;
    NothingBefore(v);
    WholeWords(numQueues, lanes);
    while i < numQueues
      invariant i == Rounds(steps, n) && Aligned(i) && i <= RoundUp(numQueues, n)
      invariant AllZero(v[..i])
    {
      Rounding(numQueues, n, steps);
      var values := buf[i..i + n];
      var result := Lanes(values);
      SliceOfSlice(buf[..], 0, |v|, i, i + n);
      assert buf[..][0..|v|] == v && values == buf[..][i..i + n];
      var j := 0;
      while j < lanes
        invariant j <= lanes && AllZero(v[..i + 8 * j])
      {
        PlainLane(v, i, n, j);
        if result[j] != 64 {
          return true, i + 8 * j + result[j] / 8;
        }
        j := j + 1;
      }
      AlignedAfter(i, lanes);
      assert 8 * lanes == n;
      i := i + n;
      steps := steps + 1;
    }
    Rounding(numQueues, n, steps);
    assert v[..i] == v;
    return false, 0;
  }

  lemma NothingBefore(v: seq<Byte>)
    ensures AllZero(v[..0])
  {
  }

  /** `cmpneq` with 64: bit `j` says that lane `j` is not zero. */
  function MaskOf(counts: seq<int>): nat {
    if counts == [] then 0 else (if counts[0] != 64 then 1 else 0) + 2 * MaskOf(counts[1..])
  }

  lemma {:induction false} HighestLane(counts: seq<int>)
    ensures MaskOf(counts) == 0 <==> forall j | 0 <= j < |counts| :: counts[j] == 64
    ensures MaskOf(counts) > 0 ==> var k := Bsr(MaskOf(counts));
              k < |counts| && counts[k] != 64 && forall j | k < j < |counts| :: counts[j] == 64
  {
    if counts != [] {
      var rest := counts[1..];
      HighestLane(rest);
      assert forall j | 0 < j < |counts| :: counts[j] == rest[j - 1];
      assert MaskOf(counts) / 2 == MaskOf(rest);
      if MaskOf(rest) > 0 {
        assert Bsr(MaskOf(counts)) == 1 + Bsr(MaskOf(rest));
      }
    }
  }

  /** Queue `n` has its flipped byte set. Every block of 64 bytes before its own is zero, and so
      is every word after its own in its block; in its word it comes first. */
  ghost predicate FirstInHighestWord(v: seq<Byte>, n: nat) {
    FirstInWord(v, n / 64 * 64, n / 8 * 8, n)
  }

  ghost predicate FirstInWord(v: seq<Byte>, block: nat, word: nat, n: nat) {
    && n < |v| && Flip(n) < |v| && v[Flip(n)] != 0
    && block <= word + 8 <= block + 64 <= |v|
    && AllZero(v[..block]) && AllZero(v[word + 8..block + 64])
    && forall k | word <= k < n :: Flip(k) < |v| && v[Flip(k)] == 0
  }

  lemma Place(i: nat, j: nat, r: nat)
    requires i % 64 == 0 && j < 8 && r < 8
    ensures (i + 8 * j + r) / 64 * 64 == i && (i + 8 * j + r) / 8 * 8 == i + 8 * j
    ensures Aligned(i + 8 * j)
  {
    var q := i / 64;
    DivUnique(i + 8 * j + r, 64, q, 8 * j + r);
    DivUnique(i + 8 * j + r, 8, 8 * q + j, r);
    AlignedAfter(0, 8 * q + j);
  }

  lemma {:induction false} ZeroLanes(v: seq<Byte>, i: nat, counts: seq<int>, j: nat)
    requires i + 64 <= |v| && j <= 8 && counts == Lanes(v[i..i + 64])
    requires forall l | j <= l < 8 :: counts[l] == 64
    ensures AllZero(v[i + 8 * j..i + 64])
    decreases 8 - j
  {
    if j < 8 {
      hide Lanes, Lzcnt, Load, AllZero;
      LaneOfBlock(v, i, j);
      LzcntOfZero(v[i + 8 * j..i + 8 * j + 8]);
      ZeroLanes(v, i, counts, j + 1);
      ZeroJoin(v, i + 8 * j, i + 8 * j + 8, i + 64);
    }
  }

  /** The word that `bsr` picks in the block at `i`. */
  lemma HighestWord(v: seq<Byte>, i: nat, counts: seq<int>, j: nat)
    requires i % 64 == 0 && i + 64 <= |v| && AllZero(v[..i]) && j < 8
    requires counts == Lanes(v[i..i + 64]) && counts[j] != 64
    requires forall l | j < l < 8 :: counts[l] == 64
    ensures var z := Lzcnt(Load(v[i + 8 * j..i + 8 * j + 8]));
            0 <= z < 64 && FirstInHighestWord(v, i + 8 * j + z / 8)
  {
    hide Lanes, Lzcnt, Load, AllZero, Flip, Aligned;
    var s := i + 8 * j;
    Place(i, j, 0);
    LaneOfBlock(v, i, j);
    LzcntOfZero(v[s..s + 8]);
    var h := LastNonZero(v[s..s + 8]);
    LzcntOfLoad(v[s..s + 8], h);
    PlainWord(v, s, h);
    ZeroLanes(v, i, counts, j + 1);
    assert FirstInWord(v, i, s, s + (7 - h));
    Place(i, j, 7 - h);
  }

  lemma LaneOfBlock(v: seq<Byte>, i: nat, j: nat)
    requires i + 64 <= |v| && j < 8
    ensures Lanes(v[i..i + 64])[j] == Lzcnt(Load(v[i + 8 * j..i + 8 * j + 8]))
  {
    LaneIs(v, i, 64, j);
  }

  /** The variant that goes straight to the highest word of a block that is not zero. */
  method FindByBsr(buf: array<Byte>, numQueues: nat) returns (foundWork: bool, connIndex: nat)
    requires RoundUp(numQueues, 64) <= buf.Length
    ensures var v := buf[..RoundUp(numQueues, 64)];
            if foundWork then FirstInHighestWord(v, connIndex) else AllZero(v)
  {
    hide RoundUp, AllZero, FirstInHighestWord, Lanes, MaskOf, Lzcnt, Load, Bsr;
    ghost var v: seq<Byte> := buf[..RoundUp(numQueues, 64)];
    ghost var steps := 0;
    var i := 0;
    NothingBefore(v);
    while i < numQueues
      invariant i == Rounds(steps, 64) && i % 64 == 0 && i <= RoundUp(numQueues, 64)
      invariant AllZero(v[..i])
    {
      Rounding(numQueues, 64, steps);
      var values := buf[i..i + 64];
      SliceOfSlice(buf[..], 0, |v|, i, i + 64);
      assert buf[..][0..|v|] == v && values == buf[..][i..i + 64];
      var counts := Lanes(values);
      var mask := MaskOf(counts);
      HighestLane(counts);
      if mask != 0 {
        var log2 := Bsr(mask);
        var byteOffset := i + log2 * 8;
        var value := Load(buf[byteOffset..byteOffset + 8]);
        SliceOfSlice(buf[..], 0, |v|, byteOffset, byteOffset + 8);
        assert buf[byteOffset..byteOffset + 8] == buf[..][byteOffset..byteOffset + 8];
        HighestWord(v, i, counts, log2);
        return true, byteOffset + Lzcnt(value) / 8;
      }
      ZeroLanes(v, i, counts, 0);
      ZeroBefore(v, i, i + 64);
      i := i + 64;
      steps := steps + 1;
    }
    Rounding(numQueues, 64, steps);
    assert v[..i] == v;
    return false, 0;
  }

  /** The scan reads whole words. It never reports a byte beyond the queues' own exactly when
      their number is a multiple of eight. */
  lemma WordsAreExactIff(numQueues: nat)
    ensures (forall v: seq<Byte>, n: nat | |v| == RoundUp(numQueues, 8) && FirstSet(v, n) :: n < numQueues)
       <==> numQueues % 8 == 0
  {
    if numQueues % 8 != 0 {
      var zeros: seq<Byte> := seq(RoundUp(numQueues, 8), _ => 0);
      var v := zeros[numQueues := 1];
      assert FirstSet(v, numQueues);
    }
  }

  /** Byte `b` is the only one set. */
  ghost predicate OnlySet(v: seq<Byte>, b: nat) {
    b < |v| && forall k | 0 <= k < |v| :: v[k] != 0 <==> k == b
  }

  /** Where one byte is set, every scan finds it. */
  lemma ScansAgree(v: seq<Byte>, b: nat, n: nat)
    requires OnlySet(v, b)
    ensures !AllZero(v)
    ensures FirstSet(v, n) ==> n == b
    ensures FirstFlipped(v, n) || FirstInHighestWord(v, n) ==> Flip(n) == b
  {
    assert v[b] != 0;
    hide Flip;
  }
}
