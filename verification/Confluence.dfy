/** The expiry a row ends with is a maximum, so the delivery order of dated grants does not matter. */
module Confluence {
  import opened Options
  import opened Moments
  import opened EntitlementRules
  import opened EntitlementRuns
  import opened ReplaySafety

  /** The end one step offers the row: the written target of a dated trial or payment for it. */
  function Offer(t: Timed, key: Source): Option<int> {
    if t.step.ToGrant? && Key(t.step.a) == key && Granting(KindOf(t.step.a)) then IsoOption(Target(t.step.a, None, t.now))
    else None
  }

  predicate NothingRelative(run: seq<Timed>, key: Source) {
    forall i :: 0 <= i < |run| && run[i].step.ToGrant? && Key(run[i].step.a) == key ==> !Relative(run[i].step.a)
  }

  lemma StepTakesOffer(db: Db, t: Timed, key: Source)
    requires Stored(db) && key.Packaged? && key in db.entitlements && db.entitlements[key].expiresAt.Some?
    requires t.step.ToGrant? && Key(t.step.a) == key ==> !Relative(t.step.a)
    ensures key in Apply(db, t).entitlements
    ensures Apply(db, t).entitlements[key].expiresAt == Later(db.entitlements[key].expiresAt, Offer(t, key))
  {
    StepRows(db, t);
    var row := db.entitlements[key];
    if KeyOf(t.step) == Some(key) {
      var a := t.step.a;
      if Granting(KindOf(a)) {
        assert Target(a, row.expiresAt, t.now) == Target(a, None, t.now);
        if Target(a, None, t.now).Some? {
          IsoOrder(row.expiresAt.value, Target(a, None, t.now).value);
          IsoOrder(Target(a, None, t.now).value, row.expiresAt.value);
        }
      }
    }
  }

  /** From a dated row, whatever is skipped as duplicate, the run ends at the furthest end offered. */
  lemma {:induction false} FinalExpiryIsFurthest(db: Db, run: seq<Timed>, key: Source)
    requires Stored(db) && key.Packaged? && key in db.entitlements && db.entitlements[key].expiresAt.Some?
    requires NothingRelative(run, key)
    ensures key in Exec(db, run).entitlements
    ensures var last := Exec(db, run).entitlements[key].expiresAt;
      && last.Some? && db.entitlements[key].expiresAt.value <= last.value
      && (forall i :: 0 <= i < |run| && Offer(run[i], key).Some? ==> Offer(run[i], key).value <= last.value)
      && (last == db.entitlements[key].expiresAt || exists i :: 0 <= i < |run| && Offer(run[i], key) == last)
    decreases |run|
  {
    if run != [] {
      var next := Apply(db, run[0]);
      StepTakesOffer(db, run[0], key);
      StepWidens(db, run[0], key);
      FinalExpiryIsFurthest(next, run[1..], key);
      var last := Exec(db, run).entitlements[key].expiresAt;
      assert last == Exec(next, run[1..]).entitlements[key].expiresAt;
      forall i | 0 <= i < |run| && Offer(run[i], key).Some?
        ensures Offer(run[i], key).value <= last.value
      {
        if i > 0 {
          assert run[i] == run[1..][i - 1];
        }
      }
      if last != next.entitlements[key].expiresAt {
        var i :| 0 <= i < |run[1..]| && Offer(run[1..][i], key) == last;
        assert Offer(run[i + 1], key) == last;
      } else if last != db.entitlements[key].expiresAt {
        assert Offer(run[0], key) == last;
      }
    }
  }

  /** No offer lies past the payload's own ends, or the granted days counted from the period start or the delivery. */
  lemma OfferIsBounded(t: Timed, key: Source)
    requires Offer(t, key).Some? && !Relative(t.step.a)
    ensures var a, info, end := t.step.a, t.step.a.event.info, Offer(t, key).value;
      || (info.trialEndsAt.Some? && end <= info.trialEndsAt.value)
      || (info.expiresAt.Some? && end <= info.expiresAt.value)
      || (Days(a).Some? && end <= info.periodStart.GetOr(t.now) + Days(a).value * DAY)
  {
    IsoOrder(0, Target(t.step.a, None, t.now).value);
  }

  /** A trial or payment whose end is the same at every delivery. */
  predicate Dated(a: Application) {
    Granting(KindOf(a)) && !Relative(a) && ClockFree(a) && Target(a, None, 0).Some?
  }

  function Deliver(grants: seq<Application>, times: seq<int>): (run: seq<Timed>)
    requires |grants| == |times|
  {
    seq(|grants|, i requires 0 <= i < |grants| => At(times[i], ToGrant(grants[i])))
  }

  predicate IsFurthestTarget(grants: seq<Application>, end: int) {
    && (exists i :: 0 <= i < |grants| && Target(grants[i], None, 0).Some? && Iso(Target(grants[i], None, 0).value) == end)
    && forall i :: 0 <= i < |grants| && Target(grants[i], None, 0).Some? ==> Iso(Target(grants[i], None, 0).value) <= end
  }

  predicate AllFor(grants: seq<Application>, key: Source) {
    forall i :: 0 <= i < |grants| ==> Key(grants[i]) == key && Dated(grants[i])
  }

  predicate NoneKnown(ledger: seq<LedgerRow>, grants: seq<Application>) {
    forall i :: 0 <= i < |grants| ==> !Duplicate(ledger, grants[i])
  }

  /** Each dated grant offers its target, whenever it is delivered. */
  lemma DatedOffers(grants: seq<Application>, times: seq<int>, key: Source)
    requires |times| == |grants| && AllFor(grants, key)
    ensures forall i :: 0 <= i < |grants| ==> Target(grants[i], None, 0).Some? && Target(grants[i], None, times[i]) == Target(grants[i], None, 0)
    ensures forall i :: 0 <= i < |grants| ==> Offer(Deliver(grants, times)[i], key) == Some(Iso(Target(grants[i], None, 0).value))
    ensures grants != [] ==> NothingRelative(Deliver(grants, times)[1..], key)
  {
    forall i | 0 <= i < |grants|
      ensures Target(grants[i], None, 0).Some? && Target(grants[i], None, times[i]) == Target(grants[i], None, 0)
    {
      assert Key(grants[i]) == key && Dated(grants[i]);
      TargetIsFixed(grants[i], None, times[i]);
    }
  }

  /** The furthest of the first target and the later offers is the furthest target. */
  lemma FurthestOffer(grants: seq<Application>, times: seq<int>, key: Source, first: int, last: int)
    requires |times| == |grants| && AllFor(grants, key) && grants != []
    requires Target(grants[0], None, 0).Some? && first == Iso(Target(grants[0], None, 0).value) <= last
    requires var rest := Deliver(grants, times)[1..];
      && (forall i :: 0 <= i < |rest| && Offer(rest[i], key).Some? ==> Offer(rest[i], key).value <= last)
      && (last == first || exists i :: 0 <= i < |rest| && Offer(rest[i], key) == Some(last))
    ensures IsFurthestTarget(grants, last)
  {
    var run := Deliver(grants, times);
    DatedOffers(grants, times, key);
    forall i | 0 < i < |grants|
      ensures Iso(Target(grants[i], None, 0).value) <= last
    {
      assert run[1..][i - 1] == run[i];
    }
    if last != first {
      var i :| 0 <= i < |run[1..]| && Offer(run[1..][i], key) == Some(last);
      assert run[1..][i] == run[i + 1];
      assert Iso(Target(grants[i + 1], None, 0).value) == last;
    }
  }

  /** From no row, dated grants end at their furthest target, whichever of them count as duplicates. */
  lemma NewRowEndsAtFurthest(db: Db, grants: seq<Application>, times: seq<int>, key: Source)
    requires Stored(db) && key !in db.entitlements && grants != [] && |times| == |grants|
    requires AllFor(grants, key) && NoneKnown(db.ledger, grants)
    ensures key in Exec(db, Deliver(grants, times)).entitlements
    ensures Exec(db, Deliver(grants, times)).entitlements[key].expiresAt.Some?
    ensures IsFurthestTarget(grants, Exec(db, Deliver(grants, times)).entitlements[key].expiresAt.value)
  {
    var run := Deliver(grants, times);
    var first := Apply(db, run[0]);
    assert Key(grants[0]) == key && !Duplicate(db.ledger, grants[0]);
    NewRowTakesTarget(db, grants[0], times[0]);
    StepWidens(db, run[0], key);
    DatedOffers(grants, times, key);
    FinalExpiryIsFurthest(first, run[1..], key);
    assert Exec(db, run) == Exec(first, run[1..]);
    FurthestOffer(grants, times, key, first.entitlements[key].expiresAt.value, Exec(db, run).entitlements[key].expiresAt.value);
  }

  lemma SameElements<T>(xs: seq<T>, ys: seq<T>, i: nat) returns (j: nat)
    requires multiset(xs) == multiset(ys) && i < |xs|
    ensures j < |ys| && ys[j] == xs[i]
  {
    assert xs[i] in multiset(xs);
    assert xs[i] in ys;
    j :| 0 <= j < |ys| && ys[j] == xs[i];
  }

  /** Any two orders, at any delivery times, end with the same expiry. */
  lemma OrderDoesNotMatter(db: Db, grants: seq<Application>, times: seq<int>, grants': seq<Application>, times': seq<int>, key: Source)
    requires Stored(db) && key !in db.entitlements && grants != []
    requires |times| == |grants| && |times'| == |grants'| && multiset(grants) == multiset(grants')
    requires AllFor(grants, key) && NoneKnown(db.ledger, grants)
    ensures var one, two := Exec(db, Deliver(grants, times)), Exec(db, Deliver(grants', times'));
      && key in one.entitlements && key in two.entitlements
      && one.entitlements[key].expiresAt == two.entitlements[key].expiresAt
  {
    forall i | 0 <= i < |grants'|
      ensures Key(grants'[i]) == key && Dated(grants'[i]) && !Duplicate(db.ledger, grants'[i])
    {
      var j := SameElements(grants', grants, i);
    }
    assert |multiset(grants)| == |grants| && |multiset(grants')| == |grants'|;
    NewRowEndsAtFurthest(db, grants, times, key);
    NewRowEndsAtFurthest(db, grants', times', key);
    var one := Exec(db, Deliver(grants, times)).entitlements[key].expiresAt.value;
    var two := Exec(db, Deliver(grants', times')).entitlements[key].expiresAt.value;
    var i :| 0 <= i < |grants| && Target(grants[i], None, 0).Some? && Iso(Target(grants[i], None, 0).value) == one;
    var i' := SameElements(grants, grants', i);
    assert one <= two;
    var j :| 0 <= j < |grants'| && Target(grants'[j], None, 0).Some? && Iso(Target(grants'[j], None, 0).value) == two;
    var j' := SameElements(grants', grants, j);
    assert two <= one;
  }
}
