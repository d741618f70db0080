/** What a row of places holds between them. */
module Bags {

  ghost function Sum<T(!new)>(xs: seq<T>, f: T -> multiset<nat>): multiset<nat> {
    if xs == [] then multiset{} else f(xs[0]) + Sum(xs[1..], f)
  }

  lemma {:induction false} SumReplace<T(!new)>(xs: seq<T>, f: T -> multiset<nat>, i: nat, y: T)
    requires i < |xs|
    ensures Sum(xs[i := y], f) + f(xs[i]) == Sum(xs, f) + f(y)
  {
    if i == 0 {
      assert xs[0 := y][1..] == xs[1..];
    } else {
      assert xs[i := y][1..] == xs[1..][i - 1 := y];
      SumReplace(xs[1..], f, i - 1, y);
      assert xs[1..][i - 1] == xs[i];
      var rest, rest' := Sum(xs[1..], f), Sum(xs[1..][i - 1 := y], f);
      assert xs[i := y][0] == xs[0];
      assert (f(xs[0]) + rest') + f(xs[i]) == f(xs[0]) + (rest + f(y));
    }
  }

  lemma {:induction false} SumAppend<T(!new)>(xs: seq<T>, f: T -> multiset<nat>, y: T)
    ensures Sum(xs + [y], f) == Sum(xs, f) + f(y)
  {
    if xs != [] {
      assert (xs + [y])[1..] == xs[1..] + [y];
      SumAppend(xs[1..], f, y);
    } else {
      assert [y][1..] == [];
    }
  }

  lemma {:induction false} SumHolds<T(!new)>(xs: seq<T>, f: T -> multiset<nat>, i: nat)
    requires i < |xs|
    ensures f(xs[i]) <= Sum(xs, f)
  {
    if i > 0 {
      SumHolds(xs[1..], f, i - 1);
    }
  }

  /** What two places hold between them is part of the whole. */
  lemma {:induction false} SumHoldsBoth<T(!new)>(xs: seq<T>, f: T -> multiset<nat>, i: nat, j: nat)
    requires i < j < |xs|
    ensures f(xs[i]) + f(xs[j]) <= Sum(xs, f)
  {
    if i == 0 {
      SumHolds(xs[1..], f, j - 1);
    } else {
      SumHoldsBoth(xs[1..], f, i - 1, j - 1);
    }
  }

  lemma {:induction false} SumEmpty<T(!new)>(xs: seq<T>, f: T -> multiset<nat>)
    requires forall x | x in xs :: f(x) == multiset{}
    ensures Sum(xs, f) == multiset{}
  {
    if xs != [] {
      SumEmpty(xs[1..], f);
    }
  }

  /** If replacing `older` by `newer` takes the whole from `before` to `after`, and `newer` has one
      more, so has `after`. */
  lemma Gain(before: multiset<nat>, after: multiset<nat>, older: multiset<nat>, newer: multiset<nat>, b: nat)
    requires after + older == before + newer && newer == older + multiset{b}
    ensures after == before + multiset{b}
  {
    Cancel(after, before + multiset{b}, older);
  }

  lemma Cancel(a: multiset<nat>, b: multiset<nat>, c: multiset<nat>)
    requires a + c == b + c
    ensures a == b
  {
    forall x ensures a[x] == b[x] {
      assert (a + c)[x] == (b + c)[x];
    }
  }

  lemma Part(a: multiset<nat>, b: multiset<nat>)
    requires a <= b
    ensures |a| <= |b|
  {
    assert b == a + (b - a);
  }

  lemma PutBack(m: multiset<nat>, b: nat)
    requires b in m
    ensures m - multiset{b} + multiset{b} == m
  {
  }

  lemma Shift(a: multiset<nat>, b: multiset<nat>, c: multiset<nat>, x: nat)
    ensures (a + multiset{x}) + b + c == a + (b + multiset{x}) + c
  {
  }
}
