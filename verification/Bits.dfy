/** Bitwise operators on numbers of any width. */
module Bits {

  /** `a & b` */
  function And(a: nat, b: nat): nat
    decreases a
  {
    if a == 0 || b == 0 then 0 else (if a % 2 == 1 && b % 2 == 1 then 1 else 0) + 2 * And(a / 2, b / 2)
  }

  /** `a ^ b` */
  function Xor(a: nat, b: nat): nat
    decreases a + b
  {
    if a == 0 && b == 0 then 0 else (if a % 2 != b % 2 then 1 else 0) + 2 * Xor(a / 2, b / 2)
  }

  /** Masking twice is masking once. */
  lemma {:induction false} MaskTwice(m: nat, x: nat)
    ensures And(m, And(m, x)) == And(m, x)
    ensures And(m, x) <= m
    decreases m
  {
    if m > 0 && x > 0 {
      MaskTwice(m / 2, x / 2);
    }
  }

  /** `&` with an odd or an even mask, one bit taken off. */
  lemma AndDouble(m: nat, k: nat)
    ensures And(2 * m + 1, 2 * k) == 2 * And(m, k) == And(2 * m, 2 * k) == And(2 * m, 2 * k + 1)
    ensures And(2 * m + 1, 2 * k + 1) == 2 * And(m, k) + 1
  {
    assert (2 * m + 1) / 2 == m == (2 * m) / 2 && (2 * k + 1) / 2 == k == (2 * k) / 2;
  }

  lemma {:induction false} XorZero(a: nat)
    ensures Xor(a, 0) == a
  {
    if a > 0 {
      XorZero(a / 2);
    }
  }

  /** `^` with an odd number, one bit taken off. */
  lemma XorOdd(a: nat, bit: nat, b: nat)
    requires bit < 2
    ensures Xor(2 * a + bit, 2 * b + 1) == 2 * Xor(a, b) + 1 - bit
  {
    assert (2 * a + bit) / 2 == a && (2 * a + bit) % 2 == bit && (2 * b + 1) / 2 == b;
  }

  /** `n ^ 7` inverts the low three bits. */
  lemma XorSeven(n: nat)
    ensures Xor(n, 7) == n / 8 * 8 + (7 - n % 8)
  {
    hide Xor;
    var n1, n2, n3 := n / 2, n / 4, n / 8;
    var x, y, z := n2 - 2 * n3, n1 - 2 * n2, n - 2 * n1;
    XorZero(n3);
    XorOdd(n3, x, 0);
    XorOdd(n2, y, 1);
    XorOdd(n1, z, 3);
  }
}
