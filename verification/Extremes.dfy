/** The least and the greatest element of a finite set of numbers. */
module Extremes {
  type Order = (nat, nat) -> bool

  ghost predicate Total(before: Order) {
    && (forall a, b :: before(a, b) || before(b, a))
    && (forall a, b, c :: before(a, b) && before(b, c) ==> before(a, c))
  }

  ghost predicate IsFirst(s: set<nat>, before: Order, m: nat) {
    m in s && forall x | x in s :: before(m, x)
  }

  /** A non-empty finite set has a first element in any total order. */
  lemma {:induction false} HasFirst(s: set<nat>, before: Order)
    requires s != {} && Total(before)
    ensures exists m :: IsFirst(s, before, m)
    decreases |s|
  {
    var x :| x in s;
    var rest := s - {x};
    if rest == {} {
      assert s == {x};
      assert IsFirst(s, before, x);
    } else {
      HasFirst(rest, before);
      var m :| IsFirst(rest, before, m);
      assert s == rest + {x};
      assert IsFirst(s, before, if before(x, m) then x else m);
    }
  }

  function Least(s: set<nat>): (m: nat)
    requires s != {}
    ensures m in s && forall x | x in s :: m <= x
  {
    HasFirst(s, (a, b) => a <= b);
    assert exists m :: m in s && forall x | x in s :: m <= x by {
      var f :| IsFirst(s, (a, b) => a <= b, f);
    }
    var m :| m in s && forall x | x in s :: m <= x;
    m
  }

  function Greatest(s: set<nat>): (m: nat)
    requires s != {}
    ensures m in s && forall x | x in s :: x <= m
  {
    HasFirst(s, (a, b) => a >= b);
    assert exists m :: m in s && forall x | x in s :: x <= m by {
      var f :| IsFirst(s, (a, b) => a >= b, f);
    }
    var m :| m in s && forall x | x in s :: x <= m;
    m
  }
}
