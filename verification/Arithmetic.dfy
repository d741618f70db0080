/** Facts about multiplication, quotients and remainders by a variable. */
module Arithmetic {

  lemma {:induction false} MulMono(a: nat, b: nat, d: nat)
    ensures a <= b ==> a * d <= b * d
    ensures a < b ==> a * d + d <= b * d
    decreases b
  {
    if a < b {
      MulMono(a, b - 1, d);
      assert b * d == (b - 1) * d + d;
    }
  }

  lemma DivUnique(z: nat, d: nat, q: nat, r: nat)
    requires r < d && z == q * d + r
    ensures z / d == q && z % d == r
  {
    assert z == (z / d) * d + z % d;
    MulMono(q, z / d, d);
    MulMono(z / d, q, d);
  }

  lemma DivSucc(z: nat, d: nat)
    requires d > 0
    ensures (z + 1) / d == z / d + (if z % d == d - 1 then 1 else 0)
  {
    var q, r := z / d, z % d;
    assert z == q * d + r;
    if r == d - 1 {
      assert z + 1 == (q + 1) * d;
      DivUnique(z + 1, d, q + 1, 0);
    } else {
      DivUnique(z + 1, d, q, r + 1);
    }
  }

  lemma RemainderSucc(z: nat, d: nat)
    requires d > 0
    ensures (z + 1) % d == if z % d == d - 1 then 0 else z % d + 1
  {
    var q, r := z / d, z % d;
    assert z == q * d + r;
    if r == d - 1 {
      assert z + 1 == (q + 1) * d;
      DivUnique(z + 1, d, q + 1, 0);
    } else {
      DivUnique(z + 1, d, q, r + 1);
    }
  }

  ghost function Rounds(k: nat, round: nat): nat {
    if k == 0 then 0 else round + Rounds(k - 1, round)
  }

  lemma {:induction false} RoundsIsProduct(k: nat, round: nat)
    ensures Rounds(k, round) == k * round
  {
    if k > 0 {
      RoundsIsProduct(k - 1, round);
      assert (k - 1) * round + round == k * round;
    }
  }

  lemma RoundsBound(k: nat, round: nat, total: nat)
    requires round > 0 && Rounds(k, round) <= total
    ensures k <= total / round
  {
    RoundsIsProduct(k, round);
    MulMono(total / round, k, round);
  }

  lemma QuotientAtMost(total: nat, d: nat)
    requires d > 0
    ensures total / d <= total
  {
    MulMono(1, d, total / d);
    assert d * (total / d) + total % d == total;
  }
}
