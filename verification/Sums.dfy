/** Finite sums over a set of identifiers. */
module Sums {
  ghost function SumOver<K(!new)>(ids: set<K>, f: K -> int): int {
    if ids == {} then 0
    else
      var x :| x in ids;
      f(x) + SumOver(ids - {x}, f)
  }

  /** Any element may be taken out first. */
  lemma {:induction false} SumTake<K(!new)>(ids: set<K>, f: K -> int, x: K)
    requires x in ids
    ensures SumOver(ids, f) == f(x) + SumOver(ids - {x}, f)
    decreases |ids|
  {
    var y :| y in ids && SumOver(ids, f) == f(y) + SumOver(ids - {y}, f);
    if y != x {
      SumTake(ids - {y}, f, x);
      SumTake(ids - {x}, f, y);
      assert ids - {y} - {x} == ids - {x} - {y};
    }
  }

  lemma SumInsert<K(!new)>(ids: set<K>, f: K -> int, x: K)
    requires x !in ids
    ensures SumOver(ids + {x}, f) == f(x) + SumOver(ids, f)
  {
    SumTake(ids + {x}, f, x);
    assert ids + {x} - {x} == ids;
  }

  lemma {:induction false} SumSame<K(!new)>(ids: set<K>, f: K -> int, g: K -> int)
    requires forall x :: x in ids ==> f(x) == g(x)
    ensures SumOver(ids, f) == SumOver(ids, g)
    decreases |ids|
  {
    if ids != {} {
      var x :| x in ids;
      SumTake(ids, f, x);
      SumTake(ids, g, x);
      SumSame(ids - {x}, f, g);
    }
  }

  lemma {:induction false} SumPlus<K(!new)>(ids: set<K>, f: K -> int, g: K -> int, h: K -> int)
    requires forall x :: x in ids ==> h(x) == f(x) + g(x)
    ensures SumOver(ids, h) == SumOver(ids, f) + SumOver(ids, g)
    decreases |ids|
  {
    if ids != {} {
      var x :| x in ids;
      SumTake(ids, f, x);
      SumTake(ids, g, x);
      SumTake(ids, h, x);
      SumPlus(ids - {x}, f, g, h);
    }
  }

  lemma {:induction false} SumZero<K(!new)>(ids: set<K>, f: K -> int)
    requires forall x :: x in ids ==> f(x) == 0
    ensures SumOver(ids, f) == 0
    decreases |ids|
  {
    if ids != {} {
      var x :| x in ids;
      SumTake(ids, f, x);
      SumZero(ids - {x}, f);
    }
  }

  lemma {:induction false} SumAtMost<K(!new)>(ids: set<K>, f: K -> int, g: K -> int)
    requires forall x :: x in ids ==> f(x) <= g(x)
    ensures SumOver(ids, f) <= SumOver(ids, g)
    decreases |ids|
  {
    if ids != {} {
      var x :| x in ids;
      SumTake(ids, f, x);
      SumTake(ids, g, x);
      SumAtMost(ids - {x}, f, g);
    }
  }

  /** A function that is v at one member and zero at the others sums to v. */
  lemma SumSingle<K(!new)>(ids: set<K>, f: K -> int, x: K)
    requires x in ids && forall y :: y in ids && y != x ==> f(y) == 0
    ensures SumOver(ids, f) == f(x)
  {
    SumTake(ids, f, x);
    SumZero(ids - {x}, f);
  }

  /** Members at which the function is zero may be left out. */
  lemma {:induction false} SumRestrict<K(!new)>(ids: set<K>, some: set<K>, f: K -> int)
    requires some <= ids && forall x :: x in ids && x !in some ==> f(x) == 0
    ensures SumOver(ids, f) == SumOver(some, f)
    decreases |ids - some|
  {
    if ids != some {
      var x :| x in ids && x !in some;
      SumTake(ids, f, x);
      assert (ids - {x}) - some == (ids - some) - {x};
      SumRestrict(ids - {x}, some, f);
    }
  }

  /** A part sums to no more than the whole when nothing is negative. */
  lemma {:induction false} SumPart<K(!new)>(ids: set<K>, some: set<K>, f: K -> int)
    requires some <= ids && forall x :: x in ids ==> f(x) >= 0
    ensures SumOver(some, f) <= SumOver(ids, f)
    decreases |ids - some|
  {
    if ids != some {
      var x :| x in ids && x !in some;
      SumTake(ids, f, x);
      assert (ids - {x}) - some == (ids - some) - {x};
      SumPart(ids - {x}, some, f);
    }
  }
}
