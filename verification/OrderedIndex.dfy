/** The ordered set of class numbers that the scheduler keeps (a C++ `set<uint16_t>`).
    An iterator is modelled by the key it points at: inserting other keys leaves it valid. */
module OrderedIndex {

  lemma PickLeast(s: set<nat>) returns (m: nat)
    requires s != {}
    ensures m in s && forall x | x in s :: m <= x
  {
    m :| m in s;
    var rest := s - {m};
    assert forall x | x in s :: x == m || x in rest;
    if rest != {} {
      var l := PickLeast(rest);
      if l < m {
        m := l;
      }
    }
  }

  lemma PickGreatest(s: set<nat>) returns (m: nat)
    requires s != {}
    ensures m in s && forall x | x in s :: x <= m
  {
    m :| m in s;
    var rest := s - {m};
    assert forall x | x in s :: x == m || x in rest;
    if rest != {} {
      var g := PickGreatest(rest);
      if m < g {
        m := g;
      }
    }
  }

  lemma LeastExists(s: set<nat>)
    requires s != {}
    ensures exists m :: m in s && forall x | x in s :: m <= x
  {
    var m := PickLeast(s);
  }

  lemma GreatestExists(s: set<nat>)
    requires s != {}
    ensures exists m :: m in s && forall x | x in s :: x <= m
  {
    var m := PickGreatest(s);
  }

  /** `*s.begin()` */
  function Least(s: set<nat>): (m: nat)
    requires s != {}
    ensures m in s && forall x | x in s :: m <= x
  {
    LeastExists(s);
    var m :| m in s && forall x | x in s :: m <= x;
    m
  }

  /** `*s.rbegin()` */
  function Greatest(s: set<nat>): (m: nat)
    requires s != {}
    ensures m in s && forall x | x in s :: x <= m
  {
    GreatestExists(s);
    var m :| m in s && forall x | x in s :: x <= m;
    m
  }

  /** The key an iterator at `key` points at after `advance(it, 1)`. */
  function Advance(s: set<nat>, key: nat): (m: nat)
    requires key in s && key != Greatest(s)
    ensures m in s && key < m && forall x | x in s && key < x :: m <= x
  {
    var later := set x | x in s && key < x;
    assert Greatest(s) in later;
    assert forall x | x in s && key < x :: x in later;
    Least(later)
  }
}
