/** The store's update methods, and the transaction one delivered event commits. */
module WhopEvents {
  import opened Options
  import opened Moments
  import opened EntitlementRules
  import opened EntitlementRuns

  datatype Mapping = Unmapped | DirectProduct(product: string) | Mapped(package: Package)

  /** A delivery with the customer and mapping it resolved to. */
  datatype Delivery = Delivery(webhookId: string, customer: string, mapping: Mapping, event: Event)

  function ApplicationOf(d: Delivery, grant: Grant): Application
    requires d.mapping.Mapped?
  {
    Application(d.customer, d.mapping.package, grant, d.event, d.webhookId)
  }

  /** The updates of the write transaction, in order. `grants` are the package's rows read inside it. */
  function TransactionSteps(d: Delivery, grants: seq<Grant>): seq<Step> {
    match d.mapping
    case Unmapped => []
    case DirectProduct(product) => [Subscribe(d.customer, d.event), ToProduct(d.customer, product, d.event, d.webhookId)]
    case Mapped(package) =>
      if package.isIgnored || !package.isActive then [Subscribe(d.customer, d.event)]
      else [Subscribe(d.customer, d.event)] + seq(|grants|, i requires 0 <= i < |grants| => ToGrant(ApplicationOf(d, grants[i])))
  }

  /** Each update with the clock reading it made. */
  function Stamp(steps: seq<Step>, times: seq<int>): seq<Timed>
    requires |steps| == |times|
  {
    seq(|steps|, i requires 0 <= i < |steps| => At(times[i], steps[i]))
  }

  datatype EventResult = UnmappedPackage | IgnoredPackage | InactivePackage | NoPackageGrants | AppliedEvent

  datatype GrantResult = DuplicateGrant | LeftAlone | Applied(status: Status, days: nat, expiresAt: Option<int>)

  function ResultOf(d: Delivery, grants: seq<Grant>): EventResult {
    match d.mapping
    case Unmapped => UnmappedPackage
    case DirectProduct(_) => AppliedEvent
    case Mapped(package) =>
      if package.isIgnored then IgnoredPackage
      else if !package.isActive then InactivePackage
      else if grants == [] then NoPackageGrants
      else AppliedEvent
  }

  /** The entitlement tables as the service's write transaction sees them. */
  class WhopStore {
    var entitlements: map<Source, Row>
    var ledger: seq<LedgerRow>
    var subscriptions: map<string, Subscription>

    constructor ()
      ensures Contents() == Db(map[], [], map[])
    {
      entitlements, ledger, subscriptions := map[], [], map[];
    }

    ghost function Contents(): Db
      reads this
    {
      Db(entitlements, ledger, subscriptions)
    }

    /** Afterwards the ledger has a row with this fingerprint, earlier rows are as they were, and no fingerprint occurs twice
        if none did before. */
    method RecordGrantLedger(entry: LedgerRow)
      modifies this`ledger
      ensures old(ledger) <= ledger && Recorded(ledger, entry.fingerprint)
      ensures if Recorded(old(ledger), entry.fingerprint) then ledger == old(ledger)
              else |ledger| == |old(ledger)| + 1 && ledger[|old(ledger)|] == entry
      ensures FingerprintsUnique(old(ledger)) ==> FingerprintsUnique(ledger)
      ensures Contents() == old(Contents()).(ledger := Record(old(ledger), entry))
    {
      if Recorded(ledger, entry.fingerprint) {
        return;
      }
      ledger := ledger + [entry];
      assert ledger[|ledger| - 1].fingerprint == entry.fingerprint;
    }

    method UpsertSubscription(customer: string, event: Event, now: int)
      modifies this`subscriptions
      ensures Contents() == ApplySubscription(old(Contents()), customer, event, now)
    {
      var info := event.info;
      if info.membershipId.None? {
        return;
      }
      var id := info.membershipId.value;
      if id !in subscriptions {
        subscriptions := subscriptions[id :=
          Subscription(customer, info.planId, SubscriptionStatusOf(event), info.rawStatus,
                       IsoOption(info.periodStart), IsoOption(info.expiresAt), info.cancelAtPeriodEnd, Iso(now), Iso(now))];
        return;
      }
      var existing := subscriptions[id];
      var savedStart := Later(existing.periodStart, info.periodStart);
      var savedEnd := Later(existing.periodEnd, info.expiresAt);
      var stale := SubscriptionStatusOf(event) == SubExpired
        && ((existing.periodEnd.Some? && info.expiresAt.None? && existing.periodEnd.value > now)
            || (existing.periodEnd.Some? && info.expiresAt.Some? && info.expiresAt.value < existing.periodEnd.value));
      var status := if stale then existing.status else SubscriptionStatusOf(event);
      var rawStatus := if stale then existing.rawStatus else info.rawStatus;
      var planId := if stale then existing.planId else info.planId.Or(existing.planId);
      var cancel := if stale then existing.cancelAtPeriodEnd else info.cancelAtPeriodEnd;
      subscriptions := subscriptions[id :=
        Subscription(customer, planId, status, rawStatus, IsoOption(savedStart), IsoOption(savedEnd), cancel,
                     existing.createdAt, Iso(now))];
    }

    method WriteRow(key: Source, customer: string, product: string, event: Event, webhookId: string, now: int,
                    startsAfter: int, status: Status, expiresAfter: Option<int>, revokedAt: Option<int>)
      modifies this`entitlements
      ensures entitlements == old(entitlements)[key :=
        Row(customer, product, event.info.membershipId, status, Some(Iso(startsAfter)), IsoOption(expiresAfter), revokedAt,
            Some(webhookId), if key in old(entitlements) then old(entitlements)[key].createdAt else Iso(now), Iso(now))]
    {
      var createdAt := Iso(now);
      if key in entitlements {
        createdAt := entitlements[key].createdAt;
      }
      entitlements := entitlements[key :=
        Row(customer, product, event.info.membershipId, status, Some(Iso(startsAfter)), IsoOption(expiresAfter), revokedAt,
            Some(webhookId), createdAt, Iso(now))];
    }

    method UpsertDirectEntitlement(customer: string, product: string, event: Event, webhookId: string, now: int)
      modifies this`entitlements
      ensures Contents() == ApplyDirect(old(Contents()), customer, product, event, webhookId, now)
    {
      var info, kind := event.info, GrantKind(event);
      var key := Direct(info.membershipId.Or(info.entitlementId).GetOr(webhookId));
      var existing: Option<Row> := None;
      var beforeExpiry, beforeStart: Option<int> := None, None;
      if key in entitlements {
        existing := Some(entitlements[key]);
        beforeExpiry, beforeStart := existing.value.expiresAt, existing.value.startsAt;
      }
      var startsAfter := Earlier(beforeStart, info.periodStart).GetOr(now);
      if kind in {Paid, Renewal} {
        startsAfter := Earlier(Some(startsAfter), Some(now)).GetOr(now);
      }
      var expiresAfter := ExpiryTarget(kind, info, None, now);
      var status, revokedAt: Option<int> := event.status, None;
      if existing.Some? {
        expiresAfter := if beforeExpiry.None? then None else Later(beforeExpiry, expiresAfter);
      }
      if kind in {Trial, Paid, Renewal} && existing.Some? {
        if existing.value.status == Active && kind == Trial {
          status := Active;
        }
        if existing.value.status in {Revoked, Suspended}
          && (expiresAfter.None? || beforeExpiry.None? || expiresAfter.value <= beforeExpiry.value) {
          status, revokedAt := existing.value.status, existing.value.revokedAt;
        }
      } else if kind == Revoke {
        status, revokedAt := Revoked, Some(Iso(now));
      } else if kind == Expire {
        if existing.Some? && (beforeExpiry.None? || beforeExpiry.value > now) {
          status := if existing.value.status == Expired && existing.value.revokedAt.None? then Active else existing.value.status;
          revokedAt := existing.value.revokedAt;
        } else {
          status := Expired;
          expiresAfter := Some(beforeExpiry.Or(expiresAfter).GetOr(now));
        }
      } else if kind == Suspend {
        status := Suspended;
        expiresAfter := beforeExpiry.Or(expiresAfter);
      } else if kind == Ignored {
        return;
      }
      WriteRow(key, customer, product, event, webhookId, now, startsAfter, status, expiresAfter, revokedAt);
    }

    /** The body of a package grant between reading the row and writing it. */
    method DecidePackageGrant(existing: Option<Row>, duplicate: bool, a: Application, now: int) returns (decision: Decision)
      requires duplicate ==> Granting(KindOf(a))
      ensures decision == DecidePackage(existing, duplicate, a, now)
    {
      var info, kind, grantDays := a.event.info, GrantKind(a.event), a.grant.days.Or(a.package.defaultDays);
      var beforeExpiry := if existing.Some? then existing.value.expiresAt else None;
      var target := ExpiryTarget(kind, info, grantDays, now);
      var relative := kind in {Paid, Renewal} && grantDays.Some? && info.periodStart.None? && info.expiresAt.None?;
      if relative {
        target := Some(Later(beforeExpiry, Some(now)).GetOr(now) + grantDays.value * DAY);
      }
      var improves := existing.Some? && beforeExpiry.Some? && target.Some? && target.value > beforeExpiry.value;
      if duplicate && (relative || !improves) {
        return Skip;
      }
      var expiresAfter := if existing.Some? then beforeExpiry else target;
      var daysApplied, status, revokedAt: Option<int> := 0, a.event.status, None;
      if kind in {Trial, Paid, Renewal} {
        expiresAfter := if existing.Some? && beforeExpiry.None? then None else Later(beforeExpiry, target);
        var improved := existing.None?
          || (beforeExpiry.Some? && expiresAfter.Some? && expiresAfter.value > beforeExpiry.value);
        if !duplicate && improved {
          if kind == Trial && expiresAfter.Some? {
            daysApplied := CeilDays(expiresAfter.value - now);
          } else if grantDays.Some? {
            daysApplied := grantDays.value;
          }
        }
        if existing.Some? && existing.value.status == Active && kind == Trial {
          status := Active;
        }
        if existing.Some? && existing.value.status in {Revoked, Suspended} && !improved {
          status, revokedAt := existing.value.status, existing.value.revokedAt;
        }
      } else if kind == Revoke {
        status, revokedAt := Revoked, Some(Iso(now));
      } else if kind == Expire {
        if existing.Some? && (beforeExpiry.None? || beforeExpiry.value > now) {
          status := if existing.value.status == Expired && existing.value.revokedAt.None? then Active else existing.value.status;
          expiresAfter, revokedAt := beforeExpiry, existing.value.revokedAt;
        } else {
          status := Expired;
          expiresAfter := Some(beforeExpiry.Or(target).GetOr(now));
        }
      } else if kind == Suspend {
        status := Suspended;
        expiresAfter := beforeExpiry.Or(target);
      } else {
        return Skip;
      }
      decision := Write(status, expiresAfter, revokedAt, daysApplied);
    }

    /** Writes the decided row and its ledger entry. */
    method SaveGrant(a: Application, existing: Option<Row>, decision: Decision, startsAfter: int, now: int)
      requires decision.Write? && existing == RowAt(Contents(), Key(a)) && startsAfter == StartsAfter(existing, a.event, now)
      modifies this`entitlements, this`ledger
      ensures Contents() == old(Contents()).(
        entitlements := old(entitlements)[Key(a) := WrittenRow(existing, a.customer, a.grant.product, a.event, decision, a.webhookId, now)],
        ledger := Record(old(ledger), LedgerEntry(a, Before(existing), decision, now)))
    {
      WriteRow(Key(a), a.customer, a.grant.product, a.event, a.webhookId, now,
               startsAfter, decision.status, decision.expiresAt, decision.revokedAt);
      RecordGrantLedger(LedgerRow(FingerprintOf(a), a.customer, a.package.id, a.grant.product, a.event.info.membershipId, Key(a),
                                  a.webhookId, KindOf(a), decision.days, IsoOption(a.event.info.periodStart),
                                  IsoOption(a.event.info.expiresAt), IsoOption(Before(existing)),
                                  IsoOption(decision.expiresAt), Iso(now)));
    }

    method ApplyPackageGrant(a: Application, now: int) returns (result: GrantResult)
      modifies this`entitlements, this`ledger
      ensures Contents() == ApplyGrant(old(Contents()), a, now)
      ensures result == var decision := Decide(old(Contents()), a, now);
        if decision.Write? then Applied(decision.status, decision.days, IsoOption(decision.expiresAt))
        else if Granting(KindOf(a)) then DuplicateGrant
        else LeftAlone
    {
      var key := Key(a);
      var existing: Option<Row> := None;
      if key in entitlements {
        existing := Some(entitlements[key]);
      }
      var kind, fingerprint, duplicate := GrantKind(a.event), FingerprintOf(a), false;
      var startsAfter := Earlier(if existing.Some? then existing.value.startsAt else None, a.event.info.periodStart).GetOr(now);
      if kind in {Paid, Renewal} {
        startsAfter := Earlier(Some(startsAfter), Some(now)).GetOr(now);
      }
      if kind in {Trial, Paid, Renewal} {
        duplicate := Recorded(ledger, fingerprint) || PeriodPaid(ledger, a);
      }
      var decision := DecidePackageGrant(existing, duplicate, a, now);
      if decision.Skip? {
        return if kind == Ignored then LeftAlone else DuplicateGrant;
      }
      SaveGrant(a, existing, decision, startsAfter, now);
      result := Applied(decision.status, decision.days, IsoOption(decision.expiresAt));
    }

    /** The write transaction of one delivery: its updates run one after another. */
    method UpsertEntitlement(d: Delivery, grants: seq<Grant>, times: seq<int>) returns (result: EventResult)
      requires |times| == |TransactionSteps(d, grants)|
      modifies this
      ensures Contents() == Exec(old(Contents()), Stamp(TransactionSteps(d, grants), times))
      ensures result == ResultOf(d, grants)
    {
      ghost var run := Stamp(TransactionSteps(d, grants), times);
      ghost var before := Contents();
      if d.mapping.Unmapped? {
        return UnmappedPackage;
      }
      UpsertSubscription(d.customer, d.event, times[0]);
      ExecOne(before, run, 0);
      if d.mapping.DirectProduct? {
        UpsertDirectEntitlement(d.customer, d.mapping.product, d.event, d.webhookId, times[1]);
        ExecOne(before, run, 1);
        assert run[..2] == run;
        return AppliedEvent;
      }
      if d.mapping.package.isIgnored {
        assert run[..1] == run;
        return IgnoredPackage;
      }
      if !d.mapping.package.isActive {
        assert run[..1] == run;
        return InactivePackage;
      }
      if grants == [] {
        assert run[..1] == run;
        return NoPackageGrants;
      }
      for i := 0 to |grants|
        invariant Contents() == Exec(before, run[..i + 1])
      {
        var _ := ApplyPackageGrant(ApplicationOf(d, grants[i]), times[i + 1]);
        ExecOne(before, run, i + 1);
      }
      assert run[..|grants| + 1] == run;
      return AppliedEvent;
    }
  }
}
