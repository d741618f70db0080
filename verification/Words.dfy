/** 64-bit words as numbers: loads, byte swaps and counts of leading zeros. */
module Words {

  type Byte = b: nat | b < 0x100

  /** A load on a little-endian machine. */
  function Load(bytes: seq<Byte>): nat {
    if bytes == [] then 0 else bytes[0] + 0x100 * Load(bytes[1..])
  }

  /** The `n` bytes of a word, low byte first. */
  function Bytes(w: nat, n: nat): (bytes: seq<Byte>)
    ensures |bytes| == n
  {
    if n == 0 then [] else [w % 0x100] + Bytes(w / 0x100, n - 1)
  }

  function Reverse(bytes: seq<Byte>): (r: seq<Byte>)
    ensures |r| == |bytes|
    ensures forall k | 0 <= k < |r| :: r[k] == bytes[|bytes| - 1 - k]
  {
    seq(|bytes|, k requires 0 <= k < |bytes| => bytes[|bytes| - 1 - k])
  }

  /** `htonll` on a little-endian machine. */
  function Htonll(w: nat): nat {
    Load(Reverse(Bytes(w, 8)))
  }

  function BitLength(w: nat): nat {
    if w == 0 then 0 else 1 + BitLength(w / 2)
  }

  /** `lzcnt`; 64 for a zero word. */
  function Lzcnt(w: nat): int {
    64 - BitLength(w)
  }

  /** `bsr` */
  function Bsr(w: nat): (k: nat)
    requires w > 0
  {
    BitLength(w) - 1
  }

  lemma {:induction false} BytesOfLoad(bytes: seq<Byte>)
    ensures Bytes(Load(bytes), |bytes|) == bytes
  {
    if bytes != [] {
      var rest := Load(bytes[1..]);
      BytesOfLoad(bytes[1..]);
      assert Load(bytes) % 0x100 == bytes[0] && Load(bytes) / 0x100 == rest;
    }
  }

  lemma SwappedLoad(bytes: seq<Byte>)
    requires |bytes| == 8
    ensures Htonll(Load(bytes)) == Load(Reverse(bytes))
  {
    BytesOfLoad(bytes);
  }

  lemma BitLengthShifted(w: nat, b: Byte)
    requires w > 0
    ensures BitLength(b + 0x100 * w) == 8 + BitLength(w)
  {
    var x := b + 0x100 * w;
    EightHalves(x);
    BitLengthHalves(x, 8);
  }

  function Halves(x: nat, n: nat): nat {
    if n == 0 then x else Halves(x / 2, n - 1)
  }

  lemma EightHalves(x: nat)
    ensures Halves(x, 8) == x / 0x100
  {
    var x1 := x / 2;
    var x2 := x1 / 2;
    var x3 := x2 / 2;
    var x4 := x3 / 2;
    var x5 := x4 / 2;
    var x6 := x5 / 2;
    var x7 := x6 / 2;
    assert Halves(x, 8) == Halves(x1, 7) == Halves(x2, 6) == Halves(x3, 5) == Halves(x4, 4);
    assert Halves(x4, 4) == Halves(x5, 3) == Halves(x6, 2) == Halves(x7, 1) == Halves(x7 / 2, 0);
    assert x4 == x / 0x10 && x7 / 2 == x4 / 0x10;
  }

  lemma {:induction false} BitLengthHalves(x: nat, n: nat)
    requires Halves(x, n) > 0
    ensures BitLength(x) == n + BitLength(Halves(x, n))
  {
    if n > 0 {
      HalvesOfZero(n - 1);
      BitLengthHalves(x / 2, n - 1);
    }
  }

  lemma {:induction false} HalvesOfZero(n: nat)
    ensures Halves(0, n) == 0
  {
    if n > 0 {
      HalvesOfZero(n - 1);
    }
  }

  lemma BitLengthOfByte(b: Byte)
    requires b > 0
    ensures 1 <= BitLength(b) <= 8
  {
    if BitLength(b) > 8 {
      EnoughHalves(b, 8);
      EightHalves(b);
    }
  }

  lemma {:induction false} EnoughHalves(x: nat, n: nat)
    requires BitLength(x) > n
    ensures Halves(x, n) > 0
  {
    if n > 0 {
      EnoughHalves(x / 2, n - 1);
    }
  }

  ghost predicate AllZero(bytes: seq<Byte>) {
    forall k | 0 <= k < |bytes| :: bytes[k] == 0
  }

  /** The highest byte of a word that is not zero decides its length in bits. */
  lemma {:induction false} TopByte(bytes: seq<Byte>, h: nat)
    requires h < |bytes| && bytes[h] != 0 && AllZero(bytes[h + 1..])
    ensures 8 * h < BitLength(Load(bytes)) <= 8 * h + 8
  {
    if h == 0 {
      ZeroLoad(bytes[1..]);
      BitLengthOfByte(bytes[0]);
    } else {
      assert bytes[1..][h..] == bytes[h + 1..];
      TopByte(bytes[1..], h - 1);
      BitLengthShifted(Load(bytes[1..]), bytes[0]);
    }
  }

  lemma {:induction false} ZeroLoad(bytes: seq<Byte>)
    ensures AllZero(bytes) <==> Load(bytes) == 0
  {
    if bytes != [] {
      ZeroLoad(bytes[1..]);
      assert AllZero(bytes) <==> bytes[0] == 0 && AllZero(bytes[1..]) by {
        assert forall k | 1 <= k < |bytes| :: bytes[k] == bytes[1..][k - 1];
      }
    }
  }

  /** `lzcnt >> 3` of a plain load counts the zero bytes at the top. */
  lemma LzcntOfLoad(bytes: seq<Byte>, h: nat)
    requires |bytes| == 8 && h < 8 && bytes[h] != 0 && AllZero(bytes[h + 1..])
    ensures 0 <= Lzcnt(Load(bytes)) < 64 && Lzcnt(Load(bytes)) / 8 == 7 - h
  {
    TopByte(bytes, h);
  }

  lemma ReverseZero(bytes: seq<Byte>)
    ensures AllZero(Reverse(bytes)) <==> AllZero(bytes)
  {
    assert forall k | 0 <= k < |bytes| :: bytes[k] == Reverse(bytes)[|bytes| - 1 - k];
  }

  lemma LzcntOfZero(bytes: seq<Byte>)
    requires |bytes| == 8
    ensures Lzcnt(Load(bytes)) == 64 <==> AllZero(bytes)
    ensures Lzcnt(Htonll(Load(bytes))) == 64 <==> AllZero(bytes)
  {
    hide Load, AllZero, Htonll;
    ZeroLoad(bytes);
    SwappedLoad(bytes);
    ZeroLoad(Reverse(bytes));
    ReverseZero(bytes);
  }

  /** `lzcnt >> 3` of a swapped load counts the zero bytes at the bottom. */
  lemma LzcntOfSwapped(bytes: seq<Byte>, k: nat)
    requires |bytes| == 8 && k < 8 && bytes[k] != 0 && AllZero(bytes[..k])
    ensures var z := Lzcnt(Htonll(Load(bytes))); 0 <= z < 64 && z / 8 == k
  {
    SwappedLoad(bytes);
    var r := Reverse(bytes);
    assert r[7 - k] == bytes[k];
    var top := r[8 - k..];
    forall j | 0 <= j < |top| ensures top[j] == 0 {
      assert top[j] == bytes[k - 1 - j] == bytes[..k][k - 1 - j];
    }
    LzcntOfLoad(r, 7 - k);
  }

  lemma {:induction false} FirstNonZero(bytes: seq<Byte>) returns (k: nat)
    requires !AllZero(bytes)
    ensures k < |bytes| && bytes[k] != 0 && AllZero(bytes[..k])
  {
    if bytes[0] != 0 {
      k := 0;
    } else {
      assert !AllZero(bytes[1..]) by {
        var j :| 0 <= j < |bytes| && bytes[j] != 0;
        assert bytes[1..][j - 1] != 0;
      }
      var j := FirstNonZero(bytes[1..]);
      k := j + 1;
      assert bytes[..k] == [bytes[0]] + bytes[1..][..j];
    }
  }

  lemma {:induction false} LastNonZero(bytes: seq<Byte>) returns (h: nat)
    requires !AllZero(bytes)
    ensures h < |bytes| && bytes[h] != 0 && AllZero(bytes[h + 1..])
  {
    var n := |bytes| - 1;
    if bytes[n] != 0 {
      h := n;
    } else {
      assert !AllZero(bytes[..n]) by {
        var j :| 0 <= j < |bytes| && bytes[j] != 0;
        assert bytes[..n][j] != 0;
      }
      h := LastNonZero(bytes[..n]);
      assert bytes[h + 1..] == bytes[..n][h + 1..] + [bytes[n]];
    }
  }
}
