/** What can, and what cannot, put a revoked row back in force. */
module Revocation {
  import opened Options
  import opened Moments
  import opened EntitlementRules
  import opened EntitlementRuns
  import opened ReplaySafety

  /** The row is blocked, or its finite end has passed. */
  predicate Dead(row: Row, now: int) {
    row.status in {Revoked, Suspended} || (row.expiresAt.Some? && row.expiresAt.value <= now)
  }

  lemma DeadIsNotInForce(key: Source, row: Row, now: int, later: int)
    requires Dead(row, now) && now <= later
    ensures !InForce(key, row, later)
  {
  }

  /** The end a step about this row aims for. */
  function StepTarget(db: Db, t: Timed, key: Source): Option<int>
    requires key in db.entitlements
  {
    match t.step
    case ToProduct(_, _, event, _) => ExpiryTarget(GrantKind(event), event.info, None, t.now)
    case ToGrant(a) => Target(a, db.entitlements[key].expiresAt, t.now)
    case Subscribe(_, _) => None
  }

  /** The step grants this row an end past its stored one. */
  predicate Extends(db: Db, t: Timed, key: Source)
    requires key in db.entitlements
  {
    && KeyOf(t.step) == Some(key) && Granting(GrantKind(EventOf(t.step)))
    && Improves(db.entitlements[key], StepTarget(db, t, key))
    && !(t.step.ToGrant? && Relative(t.step.a) && Duplicate(db.ledger, t.step.a))
  }

  /** What a decision about a dead row makes of it. */
  predicate Revives(decision: Decision, now: int) {
    decision.Write? && decision.status !in {Revoked, Suspended} && (decision.expiresAt.None? || Iso(decision.expiresAt.value) > now)
  }

  lemma GrantRevives(row: Row, duplicate: bool, a: Application, now: int, clock: int)
    requires Dead(row, clock) && clock <= now && (duplicate ==> Granting(KindOf(a)))
    requires row.expiresAt.Some? ==> Whole(row.expiresAt.value)
    ensures var decision := DecidePackage(Some(row), duplicate, a, now);
      Revives(decision, now) <==>
        Granting(KindOf(a)) && Improves(row, Target(a, row.expiresAt, now)) && !(Relative(a) && duplicate)
        && Iso(Target(a, row.expiresAt, now).value) > now
  {
  }

  lemma DirectRevives(row: Row, event: Event, now: int, clock: int)
    requires Dead(row, clock) && clock <= now
    requires row.expiresAt.Some? ==> Whole(row.expiresAt.value)
    ensures var decision := DecideDirect(Some(row), event, now);
      Revives(decision, now) <==>
        Granting(GrantKind(event)) && Improves(row, ExpiryTarget(GrantKind(event), event.info, None, now))
        && Iso(ExpiryTarget(GrantKind(event), event.info, None, now).value) > now
  {
  }

  /** One step revives a dead row exactly when it grants it an end past its stored end and past the present second. */
  lemma RevivedOnlyByExtension(db: Db, t: Timed, key: Source, clock: int)
    requires Stored(db) && key in db.entitlements && clock <= t.now && Dead(db.entitlements[key], clock)
    ensures key in Apply(db, t).entitlements
    ensures !Dead(Apply(db, t).entitlements[key], t.now) <==>
      Extends(db, t, key) && Iso(StepTarget(db, t, key).value) > t.now
  {
    StepRows(db, t);
    var row := db.entitlements[key];
    if KeyOf(t.step) == Some(key) {
      match t.step
      case ToGrant(a) => GrantRevives(row, Duplicate(db.ledger, a), a, t.now, clock);
      case ToProduct(_, _, event, _) => DirectRevives(row, event, t.now, clock);
    }
  }

  /** No step of the run grants the row an end past the one it has at that moment. */
  predicate NeverExtends(db: Db, run: seq<Timed>, key: Source)
    decreases |run|
  {
    run == [] ||
    (key in db.entitlements && !Extends(db, run[0], key) && NeverExtends(Apply(db, run[0]), run[1..], key))
  }

  lemma {:induction false} RevocationSticks(db: Db, clock: int, run: seq<Timed>, key: Source, now: int)
    requires Stored(db) && key in db.entitlements && Dead(db.entitlements[key], clock)
    requires Ordered(clock, run) && NeverExtends(db, run, key) && LastTime(clock, run) <= now
    ensures key in Exec(db, run).entitlements
    ensures Dead(Exec(db, run).entitlements[key], now)
    ensures !InForce(key, Exec(db, run).entitlements[key], now)
    decreases |run|
  {
    if run == [] {
      DeadIsNotInForce(key, db.entitlements[key], clock, now);
    } else {
      RevivedOnlyByExtension(db, run[0], key, clock);
      StepWidens(db, run[0], key);
      RevocationSticks(Apply(db, run[0]), run[0].now, run[1..], key, now);
    }
  }

  /** The step is not a grant for the row, or it redelivers a replay-safe grant that is settled. */
  ghost predicate Harmless(db: Db, step: Step, key: Source) {
    KeyOf(step) == Some(key) && Granting(GrantKind(EventOf(step))) ==>
      exists a :: step.ToGrant? && SameGrant(a, step.a) && ReplaySafe(a) && Settled(db, a)
  }

  lemma HarmlessDoesNotExtend(db: Db, t: Timed, key: Source)
    requires key in db.entitlements && Harmless(db, t.step, key)
    ensures !Extends(db, t, key)
  {
    if KeyOf(t.step) == Some(key) && Granting(GrantKind(EventOf(t.step))) {
      var a :| t.step.ToGrant? && SameGrant(a, t.step.a) && ReplaySafe(a) && Settled(db, a);
      var b := t.step.a;
      assert Key(b) == Key(a) && FingerprintOf(b) == FingerprintOf(a) && Duplicate(db.ledger, b);
      if !Relative(b) {
        TargetIsFixed(b, db.entitlements[key].expiresAt, t.now);
      }
    }
  }

  lemma {:induction false} HarmlessRunNeverExtends(db: Db, run: seq<Timed>, key: Source)
    requires Stored(db) && key in db.entitlements
    requires forall i :: 0 <= i < |run| ==> Harmless(db, run[i].step, key)
    ensures NeverExtends(db, run, key)
    decreases |run|
  {
    if run != [] {
      assert Harmless(db, run[0].step, key);
      HarmlessDoesNotExtend(db, run[0], key);
      StepWidens(db, run[0], key);
      var next := Apply(db, run[0]);
      assert Exec(db, [run[0]]) == next by {
        assert [run[0]][1..] == [];
        assert Exec(next, []) == next;
      }
      forall i | 0 <= i < |run[1..]|
        ensures Harmless(next, run[1..][i].step, key)
      {
        var step := run[i + 1].step;
        assert Harmless(db, step, key);
        if KeyOf(step) == Some(key) && Granting(GrantKind(EventOf(step))) {
          var a :| step.ToGrant? && SameGrant(a, step.a) && ReplaySafe(a) && Settled(db, a);
          SettledStays(db, a, [run[0]]);
        }
      }
      HarmlessRunNeverExtends(next, run[1..], key);
    }
  }

  /** Notices of any kind and redeliveries of known grants never undo a revocation. */
  lemma NoticesAndReplaysKeepRevocation(db: Db, clock: int, run: seq<Timed>, key: Source, now: int)
    requires Stored(db) && key in db.entitlements
    requires db.entitlements[key].status == Revoked
    requires forall i :: 0 <= i < |run| ==> Harmless(db, run[i].step, key)
    requires Ordered(clock, run) && LastTime(clock, run) <= now
    ensures key in Exec(db, run).entitlements && !InForce(key, Exec(db, run).entitlements[key], now)
  {
    HarmlessRunNeverExtends(db, run, key);
    RevocationSticks(db, clock, run, key, now);
  }
}
