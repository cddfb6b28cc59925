/** When a redelivered trial or payment is a no-op, and what goes wrong exactly when it is not. */
module ReplaySafety {
  import opened Options
  import opened Moments
  import opened EntitlementRules
  import opened EntitlementRuns

  /** The same payload again, under any webhook id. */
  predicate SameGrant(a: Application, b: Application) {
    b == a.(webhookId := b.webhookId)
  }

  /** The target does not read the delivery clock. */
  predicate ClockFree(a: Application) {
    var info := a.event.info;
    Days(a).None? || info.periodStart.Some?
    || (KindOf(a) == Trial && (info.trialEndsAt.Some? || info.expiresAt.Some?))
  }

  /** What a sender can check: the grant adds days relative to the row, or aims at a fixed whole second. */
  predicate ReplaySafe(a: Application) {
    Relative(a) || (ClockFree(a) && var target := Target(a, None, 0); target.None? || Whole(target.value))
  }

  lemma TargetIsFixed(a: Application, before: Option<int>, now: int)
    requires Granting(KindOf(a)) && ClockFree(a) && !Relative(a)
    ensures Target(a, before, now) == Target(a, None, 0)
  {
  }

  /** The ledger knows the grant and the row already reaches its target. */
  ghost predicate Settled(db: Db, a: Application) {
    && Duplicate(db.ledger, a) && Key(a) in db.entitlements
    && (!Relative(a) && Target(a, None, 0).Some? ==>
          var row := db.entitlements[Key(a)];
          row.expiresAt.Some? && Target(a, None, 0).value <= row.expiresAt.value)
  }

  /** Ledger rows are never removed. */
  lemma {:induction false} LedgerOnlyGrows(db: Db, run: seq<Timed>)
    ensures db.ledger <= Exec(db, run).ledger
    decreases |run|
  {
    if run != [] {
      assert db.ledger <= Apply(db, run[0]).ledger;
      LedgerOnlyGrows(Apply(db, run[0]), run[1..]);
    }
  }

  lemma DuplicateStays(before: seq<LedgerRow>, after: seq<LedgerRow>, a: Application)
    requires before <= after && Duplicate(before, a)
    ensures Duplicate(after, a)
  {
    if Recorded(before, FingerprintOf(a)) {
      var i :| 0 <= i < |before| && before[i].fingerprint == FingerprintOf(a);
      assert after[i].fingerprint == FingerprintOf(a);
    } else {
      var info := a.event.info;
      var i :| 0 <= i < |before| && PaysPeriod(before[i], a.customer, a.package.id, a.grant.product, info.membershipId.value, Iso(info.periodStart.value));
      assert PaysPeriod(after[i], a.customer, a.package.id, a.grant.product, info.membershipId.value, Iso(info.periodStart.value));
    }
  }

  lemma WrittenGrantIsRecorded(db: Db, a: Application, now: int)
    requires Decide(db, a, now).Write?
    ensures Recorded(ApplyGrant(db, a, now).ledger, FingerprintOf(a))
  {
    var ledger := ApplyGrant(db, a, now).ledger;
    if !Recorded(db.ledger, FingerprintOf(a)) {
      assert ledger[|db.ledger|].fingerprint == FingerprintOf(a);
    }
  }

  /** A replay-safe grant that leaves a row behind settles it, unless the row had no end before. */
  lemma FirstDeliverySettles(db: Db, a: Application, now: int)
    requires Stored(db) && Granting(KindOf(a)) && ReplaySafe(a)
    requires Key(a) in db.entitlements ==> db.entitlements[Key(a)].expiresAt.Some?
    requires Key(a) in ApplyGrant(db, a, now).entitlements
    ensures Settled(ApplyGrant(db, a, now), a)
  {
    var before := Before(RowAt(db, Key(a)));
    if !Relative(a) {
      TargetIsFixed(a, before, now);
    }
    if Decide(db, a, now).Write? {
      WrittenGrantIsRecorded(db, a, now);
      var target := Target(a, None, 0);
      if !Relative(a) && target.Some? {
        IsoOrder(target.value, Decide(db, a, now).expiresAt.value);
      }
    }
  }

  lemma SettledStays(db: Db, a: Application, run: seq<Timed>)
    requires Stored(db) && Settled(db, a)
    ensures Settled(Exec(db, run), a)
  {
    CoverageOnlyWidens(db, run, Key(a));
    LedgerOnlyGrows(db, run);
    DuplicateStays(db.ledger, Exec(db, run).ledger, a);
  }

  lemma SettledReplayDoesNothing(db: Db, a: Application, b: Application, now: int)
    requires Granting(KindOf(a)) && ReplaySafe(a) && SameGrant(a, b) && Settled(db, a)
    ensures ApplyGrant(db, b, now) == db
  {
    assert Key(b) == Key(a) && KindOf(b) == KindOf(a) && FingerprintOf(b) == FingerprintOf(a);
    assert Duplicate(db.ledger, b);
    if !Relative(a) {
      TargetIsFixed(b, db.entitlements[Key(a)].expiresAt, now);
    }
  }

  lemma LastGrantSettles(db: Db, head: seq<Timed>, t: Timed, a: Application)
    requires Stored(db) && t.step == ToGrant(a) && Granting(KindOf(a)) && ReplaySafe(a)
    requires forall i :: 0 <= i < |head| ==> KeyOf(head[i].step) != Some(Key(a))
    requires RowAt(db, Key(a)).Some? ==> RowAt(db, Key(a)).value.expiresAt.Some?
    requires RowAt(Apply(Exec(db, head), t), Key(a)).Some?
    ensures Stored(Apply(Exec(db, head), t)) && Settled(Apply(Exec(db, head), t), a)
  {
    OtherSourcesUntouched(db, head, Key(a));
    CoverageOnlyWidens(db, head, Key(a));
    StepWidens(Exec(db, head), t, Key(a));
    FirstDeliverySettles(Exec(db, head), a, t.now);
  }

  /** A run with one step about the row, a replay-safe grant, settles that grant if a row is left behind. */
  lemma OnlyGrantSettles(db: Db, run: seq<Timed>, n: nat, a: Application)
    requires Stored(db) && n < |run| && run[n].step == ToGrant(a) && Granting(KindOf(a)) && ReplaySafe(a)
    requires forall i :: 0 <= i < |run| && i != n ==> KeyOf(run[i].step) != Some(Key(a))
    requires RowAt(db, Key(a)).Some? ==> RowAt(db, Key(a)).value.expiresAt.Some?
    requires RowAt(Exec(db, run), Key(a)).Some?
    ensures Settled(Exec(db, run), a)
  {
    var head, tail := run[..n], run[n + 1..];
    var written := Apply(Exec(db, head), run[n]);
    ExecAround(db, run, n);
    OtherSourcesUntouched(written, tail, Key(a));
    LastGrantSettles(db, head, run[n], a);
    SettledStays(written, a, tail);
  }

  /** Once a replay-safe grant has taken effect, each later redelivery changes nothing, whatever came between. */
  lemma ReplaysDoNothing(db: Db, run: seq<Timed>, i: nat, j: nat)
    requires Stored(db) && i < j < |run| && run[i].step.ToGrant? && run[j].step.ToGrant?
    requires SameGrant(run[i].step.a, run[j].step.a) && Granting(KindOf(run[i].step.a)) && ReplaySafe(run[i].step.a)
    requires var row := RowAt(Exec(db, run[..i]), Key(run[i].step.a)); row.Some? ==> row.value.expiresAt.Some?
    requires Key(run[i].step.a) in Exec(db, run[..i + 1]).entitlements
    ensures Exec(db, run[..j + 1]) == Exec(db, run[..j])
  {
    var a, b := run[i].step.a, run[j].step.a;
    var first := Exec(db, run[..i]);
    CoverageOnlyWidens(db, run[..i], Key(a));
    ExecOne(db, run, i);
    FirstDeliverySettles(first, a, run[i].now);
    var between := run[i + 1..j];
    assert run[..j] == run[..i + 1] + between;
    ExecConcat(db, run[..i + 1], between);
    StepWidens(first, run[i], Key(a));
    SettledStays(Exec(db, run[..i + 1]), a, between);
    ExecOne(db, run, j);
    SettledReplayDoesNothing(Exec(db, run[..j]), a, b, run[j].now);
  }

  lemma NewRowTakesTarget(db: Db, a: Application, now: int)
    requires Granting(KindOf(a)) && Key(a) !in db.entitlements && !Duplicate(db.ledger, a)
    ensures Key(a) in ApplyGrant(db, a, now).entitlements
    ensures ApplyGrant(db, a, now).entitlements[Key(a)].expiresAt == IsoOption(Target(a, None, now))
    ensures ApplyGrant(db, a, now).entitlements[Key(a)].startsAt == Some(Iso(StartsAfter(None, a.event, now)))
  {
    assert Decide(db, a, now).Write?;
  }

  lemma RevocationKeepsEnd(db: Db, a: Application, now: int)
    requires KindOf(a) == Revoke && Key(a) in db.entitlements
    ensures Key(a) in ApplyGrant(db, a, now).entitlements
    ensures ApplyGrant(db, a, now).entitlements[Key(a)].status == Revoked
    ensures ApplyGrant(db, a, now).entitlements[Key(a)].revokedAt.Some?
    ensures ApplyGrant(db, a, now).entitlements[Key(a)].expiresAt == IsoOption(db.entitlements[Key(a)].expiresAt)
    ensures ApplyGrant(db, a, now).entitlements[Key(a)].startsAt
         == Some(Iso(StartsAfter(Some(db.entitlements[Key(a)]), a.event, now)))
  {
  }

  /** A dated grant that reaches past a revoked row's end lifts the revocation, ledger duplicate or not. */
  lemma ImprovingGrantLiftsRevocation(db: Db, a: Application, now: int)
    requires Granting(KindOf(a)) && !Relative(a) && Key(a) in db.entitlements
    requires db.entitlements[Key(a)].status == Revoked
    requires Improves(db.entitlements[Key(a)], Target(a, db.entitlements[Key(a)].expiresAt, now))
    ensures Key(a) in ApplyGrant(db, a, now).entitlements
    ensures ApplyGrant(db, a, now).entitlements[Key(a)].status == a.event.status
    ensures ApplyGrant(db, a, now).entitlements[Key(a)].revokedAt.None?
  {
  }

  /** An unsafe grant's target at a late enough delivery is past what its first delivery stored. */
  lemma UnsafeTargetGrows(a: Application, t: int, before: Option<int>, v: int)
    requires Granting(KindOf(a)) && !ReplaySafe(a)
    ensures Target(a, None, t).Some?
    ensures Iso(Target(a, None, t).value) < v ==>
      Target(a, before, v).Some? && Target(a, before, v).value > Iso(Target(a, None, t).value)
  {
    if ClockFree(a) {
      TargetIsFixed(a, None, t);
      TargetIsFixed(a, before, v);
      IsoOrder(0, Target(a, None, t).value);
    }
  }

  /** Every other grant is unsafe: after it and a revocation, a later redelivery clears the revocation. */
  lemma UnsafeReplayLiftsRevocation(db: Db, a: Application, revocation: Application, t: int, u: int) returns (v: int)
    requires Granting(KindOf(a)) && !ReplaySafe(a)
    requires Key(a) !in db.entitlements && !Duplicate(db.ledger, a)
    requires KindOf(revocation) == Revoke && Key(revocation) == Key(a) && t <= u
    ensures u <= v
    ensures
      var revoked := ApplyGrant(ApplyGrant(db, a, t), revocation, u);
      var replayed := ApplyGrant(revoked, a, v);
      && Key(a) in revoked.entitlements && revoked.entitlements[Key(a)].status == Revoked
      && Key(a) in replayed.entitlements && replayed.entitlements[Key(a)].status == a.event.status
      && replayed.entitlements[Key(a)].revokedAt.None?
  {
    UnsafeTargetGrows(a, t, None, t);
    var stored := Iso(Target(a, None, t).value);
    v := if stored < u then u else stored + 1;
    IsoOrder(0, Target(a, None, t).value);
    assert Iso(stored) == stored;
    NewRowTakesTarget(db, a, t);
    var granted := ApplyGrant(db, a, t);
    RevocationKeepsEnd(granted, revocation, u);
    UnsafeTargetGrows(a, t, Some(stored), v);
    ImprovingGrantLiftsRevocation(ApplyGrant(granted, revocation, u), a, v);
  }

  // ----- When a redelivery puts a revoked row back in force -----

  /** The end of the grant that no delivery moves, if it has one. */
  function FixedEnd(a: Application): Option<int> {
    if ClockFree(a) then Target(a, None, 0) else a.event.info.expiresAt
  }

  /** Each later delivery aims further. */
  predicate Moving(a: Application) {
    !Relative(a) && !ClockFree(a) && Days(a).GetOr(0) > 0
  }

  /** The event grants access, and its target moves with each delivery, or has a fraction of a second and lies past the
      row's start and its revocation. */
  predicate CanReturn(a: Application, start: int, revokedAt: int) {
    && a.event.status in {Active, Trialing}
    && (Moving(a)
        || (!Relative(a) && FixedEnd(a).Some? && !Whole(FixedEnd(a).value)
            && start < Iso(FixedEnd(a).value) && revokedAt < Iso(FixedEnd(a).value)))
  }

  /** Delivering the grant at `now` leaves its row in force. */
  predicate BackInForce(db: Db, a: Application, now: int) {
    var row := RowAt(ApplyGrant(db, a, now), Key(a));
    row.Some? && InForce(Key(a), row.value, now)
  }

  /** A row granted once and then revoked. */
  ghost predicate RevokedAfter(row: Row, a: Application, t: int) {
    && row.status == Revoked && row.revokedAt.Some? && row.expiresAt == IsoOption(Target(a, None, t))
    && row.startsAt.Some? && Whole(row.startsAt.value)
    && (a.event.info.periodStart.Some? ==> row.startsAt.value <= a.event.info.periodStart.value)
    && (a.event.info.periodStart.None? || Paying(KindOf(a)) ==> row.startsAt.value <= t)
  }

  lemma GrantThenRevoke(db: Db, a: Application, revocation: Application, t: int, u: int)
    requires Granting(KindOf(a)) && Key(a) !in db.entitlements && !Duplicate(db.ledger, a)
    requires KindOf(revocation) == Revoke && Key(revocation) == Key(a) && t <= u
    ensures var revoked := ApplyGrant(ApplyGrant(db, a, t), revocation, u);
      && Key(a) in revoked.entitlements && RevokedAfter(revoked.entitlements[Key(a)], a, t)
      && Duplicate(revoked.ledger, a)
  {
    var granted := ApplyGrant(db, a, t);
    NewRowTakesTarget(db, a, t);
    RevocationKeepsEnd(granted, revocation, u);
    var start := StartsAfter(None, a.event, t);
    IsoOrder(0, start);
    IsoOrder(0, StartsAfter(Some(granted.entitlements[Key(a)]), revocation.event, u));
    if Target(a, None, t).Some? {
      IsoOrder(0, Target(a, None, t).value);
    }
    assert Decide(db, a, t).Write?;
    WrittenGrantIsRecorded(db, a, t);
    RevocationKeepsLedger(granted, revocation, a, u);
  }

  lemma RevocationKeepsLedger(db: Db, revocation: Application, a: Application, now: int)
    requires Duplicate(db.ledger, a)
    ensures Duplicate(ApplyGrant(db, revocation, now).ledger, a)
  {
    DuplicateStays(db.ledger, ApplyGrant(db, revocation, now).ledger, a);
  }

  /** A delivery puts a revoked row back in force exactly when it grants access past the stored end and past now. */
  lemma RevokedRowReturns(db: Db, a: Application, t: int, now: int)
    requires Granting(KindOf(a)) && t <= now && Key(a) in db.entitlements
    requires RevokedAfter(db.entitlements[Key(a)], a, t) && Duplicate(db.ledger, a)
    ensures var row := db.entitlements[Key(a)];
      BackInForce(db, a, now) <==>
        a.event.status in {Active, Trialing} && !Relative(a) && row.startsAt.value <= now
        && Improves(row, Target(a, None, now)) && Iso(Target(a, None, now).value) > now
  {
    var row := db.entitlements[Key(a)];
    assert StartsAfter(Some(row), a.event, now) == row.startsAt.value;
    if !Relative(a) {
      assert Target(a, row.expiresAt, now) == Target(a, None, now);
    }
  }

  /** The later delivery at which a grant that can return does so. */
  function ReturnTime(a: Application, t: int, start: int, u: int): int {
    if !Moving(a) then (if start <= u then u else start)
    else if u <= Iso(Target(a, None, t).GetOr(0)) then Iso(Target(a, None, t).GetOr(0)) + 1 else u
  }

  lemma TargetAtReturn(a: Application, t: int, start: int, u: int)
    requires Granting(KindOf(a)) && t <= u && CanReturn(a, start, u)
    requires a.event.info.periodStart.None? || Paying(KindOf(a)) ==> start <= t
    ensures var v := ReturnTime(a, t, start, u);
      && u <= v && start <= v && Target(a, None, t).Some? && Target(a, None, v).Some?
      && Target(a, None, v).value > Iso(Target(a, None, t).value) && Iso(Target(a, None, v).value) > v
  {
    var v := ReturnTime(a, t, start, u);
    IsoOrder(0, v);
    if Moving(a) {
      assert a.event.info.periodStart.None?;
      IsoOrder(0, Target(a, None, t).value);
      IsoOrder(v + Days(a).value * DAY, Target(a, None, v).value);
      DaysKeepFraction(v, Days(a).value);
    } else {
      IsoOrder(0, FixedEnd(a).value);
      if ClockFree(a) {
        TargetIsFixed(a, None, t);
        TargetIsFixed(a, None, v);
      }
    }
  }

  lemma DaysKeepFraction(now: int, days: nat)
    ensures Iso(now + days * DAY) == Iso(now) + days * DAY
    ensures days > 0 ==> Iso(now + days * DAY) > now
  {
    assert days * DAY == days * 86_400 * SECOND;
    assert (now + days * 86_400 * SECOND) % SECOND == now % SECOND;
  }

  lemma ReturnNeedsCause(a: Application, t: int, start: int, u: int, v: int)
    requires Granting(KindOf(a)) && t <= u <= v && start <= v && !Relative(a) && a.event.status in {Active, Trialing}
    requires Target(a, None, t).Some? && Target(a, None, v).Some?
    requires Target(a, None, v).value > Iso(Target(a, None, t).value) && Iso(Target(a, None, v).value) > v
    ensures CanReturn(a, start, u)
  {
    IsoOrder(0, Target(a, None, v).value);
    IsoOrder(0, Target(a, None, t).value);
    if ClockFree(a) {
      TargetIsFixed(a, None, t);
      TargetIsFixed(a, None, v);
    }
  }

  /** After a grant and a revocation, some later redelivery of the grant under another webhook id puts the row back in
      force exactly when it can return. */
  lemma RedeliveryAfterRevocation(db: Db, a: Application, b: Application, revocation: Application, t: int, u: int, revoked: Db)
    requires Granting(KindOf(a)) && Key(a) !in db.entitlements && !Duplicate(db.ledger, a) && SameGrant(a, b)
    requires KindOf(revocation) == Revoke && Key(revocation) == Key(a) && t <= u
    requires revoked == ApplyGrant(ApplyGrant(db, a, t), revocation, u)
    ensures Key(a) in revoked.entitlements && revoked.entitlements[Key(a)].status == Revoked
    ensures revoked.entitlements[Key(a)].startsAt.Some?
    ensures (exists v :: u <= v && BackInForce(revoked, b, v)) <==> CanReturn(a, revoked.entitlements[Key(a)].startsAt.value, u)
  {
    GrantThenRevoke(db, a, revocation, t, u);
    var row := revoked.entitlements[Key(a)];
    SameGrantSamePayload(revoked.ledger, a, b);
    if CanReturn(a, row.startsAt.value, u) {
      var v := ReturnTime(a, t, row.startsAt.value, u);
      TargetAtReturn(a, t, row.startsAt.value, u);
      RevokedRowReturns(revoked, b, t, v);
      assert BackInForce(revoked, b, v);
    }
    if v :| u <= v && BackInForce(revoked, b, v) {
      RevokedRowReturns(revoked, b, t, v);
      ReturnNeedsCause(a, t, row.startsAt.value, u, v);
    }
  }

  lemma SameGrantSamePayload(ledger: seq<LedgerRow>, a: Application, b: Application)
    requires Granting(KindOf(a)) && SameGrant(a, b)
    ensures Key(b) == Key(a) && KindOf(b) == KindOf(a) && FingerprintOf(b) == FingerprintOf(a)
    ensures Relative(b) == Relative(a) && Duplicate(ledger, b) == Duplicate(ledger, a)
    ensures forall before, now :: Target(b, before, now) == Target(a, before, now)
  {
  }

  /** A replay-safe grant never returns. */
  lemma SafeGrantsDoNotReturn(a: Application, start: int, u: int)
    requires Granting(KindOf(a)) && ReplaySafe(a)
    ensures !CanReturn(a, start, u)
  {
  }
}
