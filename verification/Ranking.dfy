/** The first few members of a finite set under a strict total order. */
module Ranking {

  /** A strict total order on the members. */
  ghost predicate Orders(before: (nat, nat) -> bool, some: set<nat>) {
    && (forall i :: i in some ==> !before(i, i))
    && (forall i, j :: i in some && j in some && i != j ==> before(i, j) || before(j, i))
    && (forall i, j, k :: i in some && j in some && k in some && before(i, j) && before(j, k) ==> before(i, k))
  }

  function Ahead(some: set<nat>, before: (nat, nat) -> bool, i: nat): set<nat> {
    set j | j in some && before(j, i)
  }

  /** The members with fewer than `limit` others ahead of them. */
  function First(some: set<nat>, before: (nat, nat) -> bool, limit: nat): set<nat> {
    set i | i in some && |Ahead(some, before, i)| < limit
  }

  lemma SubsetSize<T>(small: set<T>, large: set<T>)
    requires small <= large
    ensures |small| <= |large|
    ensures |small| == |large| ==> small == large
  {
    assert large == small + (large - small);
    assert |large| == |small| + |large - small|;
  }

  /** A non-empty set has a last member. */
  lemma {:induction false} LastOf(some: set<nat>, before: (nat, nat) -> bool) returns (last: nat)
    requires some != {} && Orders(before, some)
    ensures last in some && forall i :: i in some && i != last ==> before(i, last)
    decreases some
  {
    var i :| i in some;
    if some == {i} {
      last := i;
    } else {
      var rest := LastOf(some - {i}, before);
      last := if before(i, rest) then rest else i;
      assert forall j :: j in some && j != i ==> j in some - {i};
    }
  }

  /** Without the last member, the same members come first, and the last one joins them only if there is room. */
  lemma WithoutLast(some: set<nat>, before: (nat, nat) -> bool, limit: nat, last: nat)
    requires Orders(before, some) && last in some
    requires forall i :: i in some && i != last ==> before(i, last)
    ensures First(some, before, limit) == First(some - {last}, before, limit) + if |some| <= limit then {last} else {}
  {
    var rest := some - {last};
    assert Ahead(some, before, last) == rest;
    forall i | i in rest
      ensures Ahead(some, before, i) == Ahead(rest, before, i)
    {
      assert !before(last, i);
    }
  }

  /** The first `limit` members are `limit` of them, or all of them when there are not that many. */
  lemma {:induction false} FirstSize(some: set<nat>, before: (nat, nat) -> bool, limit: nat)
    requires Orders(before, some)
    ensures |First(some, before, limit)| == if limit <= |some| then limit else |some|
    ensures |some| <= limit ==> First(some, before, limit) == some
    decreases some
  {
    if some == {} {
      assert First(some, before, limit) == {};
    } else {
      var last := LastOf(some, before);
      var rest := some - {last};
      FirstSize(rest, before, limit);
      WithoutLast(some, before, limit, last);
      var fewer := First(rest, before, limit);
      assert last !in fewer;
      if |some| <= limit {
        assert First(some, before, limit) == some;
      } else {
        assert First(some, before, limit) == fewer;
      }
    }
  }

  lemma FirstIsNested(some: set<nat>, before: (nat, nat) -> bool, smaller: nat, limit: nat)
    requires smaller <= limit
    ensures First(some, before, smaller) <= First(some, before, limit) <= some
  {
  }

  lemma FewerAreAhead(some: set<nat>, before: (nat, nat) -> bool, i: nat, j: nat)
    requires Orders(before, some) && i in some && j in some && before(i, j)
    ensures |Ahead(some, before, i)| < |Ahead(some, before, j)|
  {
    var nearer, farther := Ahead(some, before, i), Ahead(some, before, j);
    assert i !in nearer && nearer + {i} <= farther;
    SubsetSize(nearer + {i}, farther);
  }

  /** Each of the first members comes before each of the others. */
  lemma FirstPrecedeRest(some: set<nat>, before: (nat, nat) -> bool, limit: nat, i: nat, j: nat)
    requires Orders(before, some) && i in First(some, before, limit) && j in some - First(some, before, limit)
    ensures before(i, j)
  {
    if before(j, i) {
      FewerAreAhead(some, before, j, i);
    }
  }

  /** Orders that agree on the members put the same ones first. */
  lemma SameOrderSameFirst(some: set<nat>, before: (nat, nat) -> bool, before': (nat, nat) -> bool, limit: nat)
    requires forall i, j :: i in some && j in some ==> before(i, j) == before'(i, j)
    ensures First(some, before, limit) == First(some, before', limit)
  {
    forall i | i in some
      ensures Ahead(some, before, i) == Ahead(some, before', i)
    {
    }
  }
}
