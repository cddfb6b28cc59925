/** What each Whop event leaves behind, said by the status and notices it carries and the columns of the row. */
module EventEffects {
  import opened Options
  import opened Moments
  import opened EntitlementRules
  import opened EntitlementRuns

  function RowBefore(db: Db, t: Timed): Option<Row>
    requires !t.step.Subscribe?
  {
    RowAt(db, KeyOf(t.step).value)
  }

  function RowAfter(db: Db, t: Timed): Option<Row>
    requires !t.step.Subscribe?
  {
    RowAt(Apply(db, t), KeyOf(t.step).value)
  }

  // ----- Notices that take access away, on both paths -----

  /** A notice that a membership will end with its period changes no row and no ledger entry. */
  lemma CancelNoticeChangesNothing(db: Db, t: Timed)
    requires !t.step.Subscribe? && EventOf(t.step).cancelNotice
    ensures Apply(db, t) == db
  {
  }

  /** A suspension leaves the row suspended, unrevoked and never in force; a stored end stays. */
  lemma SuspensionSuspends(db: Db, t: Timed, later: int)
    requires Stored(db) && !t.step.Subscribe?
    requires EventOf(t.step).status == Suspended && !EventOf(t.step).cancelNotice
    ensures RowAfter(db, t).Some?
    ensures var row, before := RowAfter(db, t).value, RowBefore(db, t);
      && row.status == Suspended && row.revokedAt.None? && !InForce(KeyOf(t.step).value, row, later)
      && (before.Some? && before.value.expiresAt.Some? ==> row.expiresAt == before.value.expiresAt)
      && (before.None? ==> row.expiresAt == IsoOption(EventOf(t.step).info.expiresAt))
  {
  }

  /** A revocation leaves the row revoked as of now and never in force; a stored end never moves earlier. */
  lemma RevocationRevokes(db: Db, t: Timed, later: int)
    requires Stored(db) && !t.step.Subscribe?
    requires EventOf(t.step).status == Revoked && !EventOf(t.step).cancelNotice
    ensures RowAfter(db, t).Some?
    ensures var row, before, end := RowAfter(db, t).value, RowBefore(db, t), EventOf(t.step).info.expiresAt;
      && row.status == Revoked && row.revokedAt == Some(Iso(t.now)) && !InForce(KeyOf(t.step).value, row, later)
      && row.expiresAt == (
           if before.None? then IsoOption(end)
           else if t.step.ToProduct? && before.value.expiresAt.Some? && end.Some? && end.value > before.value.expiresAt.value
           then Some(Iso(end.value))
           else before.value.expiresAt)
  {
  }

  /** An expiry notice leaves a running row in force, its end no earlier and on the package path untouched. (Every row
      these events write has a start.) */
  lemma ExpiryKeepsRunningRow(db: Db, t: Timed)
    requires Stored(db) && !t.step.Subscribe? && RowBefore(db, t).Some?
    requires EventOf(t.step).status == Expired && !EventOf(t.step).cancelNotice
    requires var end := RowBefore(db, t).value.expiresAt; end.None? || t.now < end.value
    ensures RowAfter(db, t).Some?
    ensures var key, before, row := KeyOf(t.step).value, RowBefore(db, t).value, RowAfter(db, t).value;
      && (before.startsAt.Some? && InForce(key, before, t.now) ==> InForce(key, row, t.now))
      && row.revokedAt == before.revokedAt
      && row.status == (if before.status == Expired && before.revokedAt.None? then Active else before.status)
      && (t.step.ToGrant? || before.expiresAt.None? ==> row.expiresAt == before.expiresAt)
  {
    StepWidens(db, t, KeyOf(t.step).value);
  }

  /** An expiry notice about a run-out or unknown row leaves it expired: at its own end, else the notice's, else now. */
  lemma ExpiryExpiresRunOutRow(db: Db, t: Timed, later: int)
    requires Stored(db) && !t.step.Subscribe?
    requires EventOf(t.step).status == Expired && !EventOf(t.step).cancelNotice
    requires RowBefore(db, t).Some? ==> var end := RowBefore(db, t).value.expiresAt; end.Some? && end.value <= t.now
    ensures RowAfter(db, t).Some?
    ensures var row, before, end := RowAfter(db, t).value, RowBefore(db, t), EventOf(t.step).info.expiresAt;
      && row.status == Expired && row.revokedAt.None?
      && row.expiresAt == (if before.Some? then before.value.expiresAt else if end.Some? then Some(Iso(end.value)) else Some(Iso(t.now)))
      && (before.Some? && t.now <= later ==> !InForce(KeyOf(t.step).value, row, later))
  {
  }

  // ----- Events that give access -----

  /** The event gives access: a trial, or a payment or renewal. */
  predicate Gives(event: Event) {
    && !event.cancelNotice
    && (event.status in {Trialing, Active} || (event.status == Pending && event.renewNotice))
  }

  function Furthest(left: int, right: int): int {
    if left < right then right else left
  }

  /** The end the event aims for from an end `before`. A trial: its own end, else the payload's, else days from its start.
      A payment without dates: days after current coverage; with dates: the payload's end or days from its start, whichever
      is further. */
  function Aim(event: Event, days: Option<nat>, before: Option<int>, now: int): Option<int> {
    var info := event.info;
    var start := if info.periodStart.Some? then info.periodStart.value else now;
    if event.status == Trialing && info.trialEndsAt.Some? then info.trialEndsAt
    else if days.None? || (event.status == Trialing && info.expiresAt.Some?) then info.expiresAt
    else if event.status == Trialing then Some(start + days.value * 86_400_000_000)
    else if info.expiresAt.Some? then Some(Furthest(info.expiresAt.value, start + days.value * 86_400_000_000))
    else if info.periodStart.Some? then Some(info.periodStart.value + days.value * 86_400_000_000)
    else Some(Furthest(if before.Some? then before.value else now, now) + days.value * 86_400_000_000)
  }

  function DaysFor(step: Step): Option<nat> {
    match step
    case ToGrant(a) => if a.grant.days.Some? then a.grant.days else a.package.defaultDays
    case _ => None
  }

  /** The ledger has this grant, so it may be skipped; products mapped directly keep no ledger. */
  predicate Known(db: Db, step: Step) {
    step.ToGrant? && Duplicate(db.ledger, step.a)
  }

  predicate Dateless(step: Step) {
    DaysFor(step).Some? && EventOf(step).status != Trialing && EventOf(step).info.periodStart.None? && EventOf(step).info.expiresAt.None?
  }

  lemma GiftAims(db: Db, t: Timed, before: Option<int>)
    requires !t.step.Subscribe? && Gives(EventOf(t.step))
    ensures Granting(GrantKind(EventOf(t.step)))
    ensures GrantKind(EventOf(t.step)) == Trial <==> EventOf(t.step).status == Trialing
    ensures Aim(EventOf(t.step), DaysFor(t.step), before, t.now) ==
      if t.step.ToGrant? then Target(t.step.a, before, t.now)
      else ExpiryTarget(GrantKind(EventOf(t.step)), EventOf(t.step).info, None, t.now)
    ensures t.step.ToGrant? ==> Relative(t.step.a) == Dateless(t.step)
  {
  }

  /** The decision a first event leads to. */
  lemma FirstGiftDecision(db: Db, t: Timed)
    requires !t.step.Subscribe? && Gives(EventOf(t.step)) && RowBefore(db, t).None? && !Known(db, t.step)
    ensures var d := DecisionOf(db, t);
      d.Write? && d.status == EventOf(t.step).status && d.revokedAt.None?
      && d.expiresAt == Aim(EventOf(t.step), DaysFor(t.step), None, t.now)
  {
    GiftAims(db, t, None);
  }

  /** A first event gives a row of its status that ends at its aim and starts no later than the payload says. */
  lemma FirstGiftCreatesRow(db: Db, t: Timed)
    requires !t.step.Subscribe? && Gives(EventOf(t.step)) && RowBefore(db, t).None? && !Known(db, t.step)
    ensures RowAfter(db, t).Some?
    ensures var row, event := RowAfter(db, t).value, EventOf(t.step);
      && row.status == event.status && row.revokedAt.None? && row.createdAt == Iso(t.now)
      && row.customer == CustomerOf(t.step) && row.product == ProductOf(t.step) && row.subscription == event.info.membershipId
      && row.expiresAt == IsoOption(Aim(event, DaysFor(t.step), None, t.now))
      && row.startsAt == Some(Iso(
           if event.info.periodStart.None? then t.now
           else if event.status != Trialing && t.now < event.info.periodStart.value then t.now
           else event.info.periodStart.value))
  {
    StepRows(db, t);
    FirstGiftDecision(db, t);
  }

  /** The event aims past the row's finite end. */
  predicate AimsPast(row: Row, t: Timed) {
    && row.expiresAt.Some?
    && var aim := Aim(EventOf(t.step), DaysFor(t.step), row.expiresAt, t.now);
      aim.Some? && aim.value > row.expiresAt.value
  }

  /** The ledger's knowledge stops an event that carries no dates or moves nothing. */
  predicate Stopped(db: Db, t: Timed, moves: bool) {
    Known(db, t.step) && (Dateless(t.step) || !moves)
  }

  /** The decision a later event leads to. */
  lemma LaterGiftDecision(db: Db, t: Timed, before: Row)
    requires !t.step.Subscribe? && Gives(EventOf(t.step)) && RowBefore(db, t) == Some(before)
    ensures var d, moves, event := DecisionOf(db, t), AimsPast(before, t), EventOf(t.step);
      if Stopped(db, t, moves) then d.Skip?
      else
        && d.Write?
        && d.expiresAt == (if moves then Aim(event, DaysFor(t.step), before.expiresAt, t.now) else before.expiresAt)
        && (if !moves && before.status in {Revoked, Suspended} then d.status == before.status && d.revokedAt == before.revokedAt
            else (d.revokedAt.None?
                  && d.status == if before.status == Active && event.status == Trialing then Active else event.status))
  {
    GiftAims(db, t, before.expiresAt);
  }

  /** A later event moves the end only forward, to its aim; it lifts a revocation or suspension only if it moves the end; a
      trial never demotes an active row. One the ledger knows does nothing unless it carries dates and moves the end. */
  lemma LaterGiftUpdatesRow(db: Db, t: Timed, before: Row)
    requires Stored(db) && !t.step.Subscribe? && Gives(EventOf(t.step)) && RowBefore(db, t) == Some(before)
    ensures Stopped(db, t, AimsPast(before, t)) ==> Apply(db, t) == db
    ensures !Stopped(db, t, AimsPast(before, t)) ==> RowAfter(db, t).Some?
    ensures !Stopped(db, t, AimsPast(before, t)) ==>
      var row, event, moves := RowAfter(db, t).value, EventOf(t.step), AimsPast(before, t);
      && row.expiresAt == (if moves then IsoOption(Aim(event, DaysFor(t.step), before.expiresAt, t.now)) else before.expiresAt)
      && (if !moves && before.status in {Revoked, Suspended} then row.status == before.status && row.revokedAt == before.revokedAt
          else (row.revokedAt.None?
                && row.status == if before.status == Active && event.status == Trialing then Active else event.status))
  {
    StepRows(db, t);
    LaterGiftDecision(db, t, before);
    StoredEnd(db, t, before);
  }

  lemma StoredEnd(db: Db, t: Timed, before: Row)
    requires Stored(db) && !t.step.Subscribe? && RowBefore(db, t) == Some(before)
    ensures IsoOption(before.expiresAt) == before.expiresAt
  {
    if before.expiresAt.Some? {
      IsoOrder(0, before.expiresAt.value);
    }
  }

  /** A pending event that renews nothing changes nothing. */
  lemma PendingEventChangesNothing(db: Db, t: Timed)
    requires !t.step.Subscribe? && EventOf(t.step).status == Pending && !EventOf(t.step).renewNotice
    ensures Apply(db, t) == db
  {
  }

  // ----- Which row, which fingerprint, which days -----

  /** Two grants of memberships concern one row exactly when membership, package and product agree. */
  lemma OneRowPerMembership(a: Application, b: Application)
    requires a.event.info.membershipId.Some? && b.event.info.membershipId.Some?
    ensures Key(a) == Key(b) <==>
      (a.event.info.membershipId == b.event.info.membershipId && a.package.id == b.package.id && a.grant.product == b.grant.product)
  {
  }

  /** Whom a grant without payment id is remembered for. */
  function Subject(a: Application): string {
    var info := a.event.info;
    if info.membershipId.Some? then info.membershipId.value
    else if info.entitlementId.Some? then info.entitlementId.value else a.customer
  }

  predicate SameSubject(a: Application, b: Application) {
    Subject(a) == Subject(b) && a.package.id == b.package.id && a.grant.product == b.grant.product
  }

  function TrialEnd(a: Application): Option<int> {
    if a.event.info.trialEndsAt.Some? then IsoOption(a.event.info.trialEndsAt) else IsoOption(a.event.info.expiresAt)
  }

  /** Trials are one grant when subject and trial end agree; payments when their payment ids do, or, without any, when
      subject and period start do, or, without a start, subject and period end. */
  lemma FingerprintsAgree(a: Application, b: Application)
    requires Gives(a.event) && Gives(b.event)
    ensures var x, y := a.event, b.event;
      FingerprintOf(a) == FingerprintOf(b) <==>
        if x.status == Trialing || y.status == Trialing then
          x.status == y.status && SameSubject(a, b) && TrialEnd(a) == TrialEnd(b)
        else if x.info.paymentId.Some? || y.info.paymentId.Some? then
          x.info.paymentId == y.info.paymentId && a.grant.product == b.grant.product
        else
          SameSubject(a, b) && IsoOption(x.info.periodStart) == IsoOption(y.info.periodStart)
          && (x.info.periodStart.None? ==> IsoOption(x.info.expiresAt) == IsoOption(y.info.expiresAt))
  {
  }

  /** Any other event is remembered by its webhook, what it does and the product. */
  lemma OtherFingerprintsAgree(a: Application, b: Application)
    requires !a.event.cancelNotice && !b.event.cancelNotice
    requires a.event.status in {Revoked, Expired, Suspended} && b.event.status in {Revoked, Expired, Suspended}
    ensures FingerprintOf(a) == FingerprintOf(b) <==>
      (a.webhookId == b.webhookId && a.event.status == b.event.status && a.grant.product == b.grant.product)
  {
  }

  /** What a package event is called in the ledger: a renewal when it says so, a payment otherwise. */
  lemma LedgerNamesEvent(db: Db, a: Application, now: int)
    requires |db.ledger| < |ApplyGrant(db, a, now).ledger|
    ensures var row, event := ApplyGrant(db, a, now).ledger[|db.ledger|], a.event;
      && !event.cancelNotice && db.ledger == ApplyGrant(db, a, now).ledger[..|db.ledger|]
      && |ApplyGrant(db, a, now).ledger| == |db.ledger| + 1
      && (row.kind == Trial <==> event.status == Trialing)
      && (row.kind == Renewal <==> event.renewNotice && event.status in {Active, Pending})
      && (row.kind == Paid <==> !event.renewNotice && event.status == Active)
      && (row.kind == Revoke <==> event.status == Revoked) && (row.kind == Expire <==> event.status == Expired)
      && (row.kind == Suspend <==> event.status == Suspended)
      && row.customer == a.customer && row.packageId == a.package.id && row.product == a.grant.product
      && row.subscription == event.info.membershipId && row.webhookId == a.webhookId && row.entitlement == Key(a)
      && row.periodStart == IsoOption(event.info.periodStart) && row.periodEnd == IsoOption(event.info.expiresAt)
      && Key(a) in ApplyGrant(db, a, now).entitlements && row.expiresAfter == ApplyGrant(db, a, now).entitlements[Key(a)].expiresAt
      && row.expiresBefore == (if Key(a) in db.entitlements then IsoOption(db.entitlements[Key(a)].expiresAt) else None)
  {
  }

  /** A payment row of the ledger that gave days for this membership's period and this grant. */
  predicate GaveDays(row: LedgerRow, a: Application) {
    && row.customer == a.customer && row.packageId == a.package.id && row.product == a.grant.product
    && row.subscription.Some? && row.subscription == a.event.info.membershipId
    && row.periodStart.Some? && a.event.info.periodStart.Some? && row.periodStart.value == Iso(a.event.info.periodStart.value)
    && row.daysApplied > 0 && (row.kind == Paid || row.kind == Renewal)
  }

  /** The ledger knows a grant by its fingerprint, or a payment by days already given for its period. */
  lemma KnownExactly(ledger: seq<LedgerRow>, a: Application)
    requires Gives(a.event)
    ensures Duplicate(ledger, a) <==>
      (exists i :: 0 <= i < |ledger| && (ledger[i].fingerprint == FingerprintOf(a) || (a.event.status != Trialing && GaveDays(ledger[i], a))))
  {
    if i :| 0 <= i < |ledger| && a.event.status != Trialing && GaveDays(ledger[i], a) {
      assert PaysPeriod(ledger[i], a.customer, a.package.id, a.grant.product, a.event.info.membershipId.value, Iso(a.event.info.periodStart.value));
    }
    if PeriodPaid(ledger, a) {
      var i :| 0 <= i < |ledger| && PaysPeriod(ledger[i], a.customer, a.package.id, a.grant.product, a.event.info.membershipId.value,
                                               Iso(a.event.info.periodStart.value));
      assert GaveDays(ledger[i], a);
    }
  }

  /** Trial days are the fewest whole days that cover the remaining whole seconds. */
  lemma TrialDaysCover(delta: int)
    ensures delta < SECOND ==> CeilDays(delta) == 0
    ensures delta >= SECOND ==> 86_400 * (CeilDays(delta) - 1) < delta / SECOND <= 86_400 * CeilDays(delta)
  {
  }

  // ----- The subscription -----

  /** The subscription takes the event's status, except that an expiry older than the stored end, or silent about it while
      that end lies ahead, leaves status, raw text, plan and cancellation as they were. */
  lemma SubscriptionTakesStatus(db: Db, customer: string, event: Event, now: int)
    requires event.info.membershipId.Some?
    ensures var id, info := event.info.membershipId.value, event.info;
      && id in ApplySubscription(db, customer, event, now).subscriptions
      && var after := ApplySubscription(db, customer, event, now).subscriptions[id];
      if id in db.subscriptions && event.status == Expired && db.subscriptions[id].periodEnd.Some?
        && (if info.expiresAt.Some? then info.expiresAt.value < db.subscriptions[id].periodEnd.value
            else now < db.subscriptions[id].periodEnd.value)
      then
        && after.status == db.subscriptions[id].status && after.rawStatus == db.subscriptions[id].rawStatus
        && after.planId == db.subscriptions[id].planId && after.cancelAtPeriodEnd == db.subscriptions[id].cancelAtPeriodEnd
      else
        && (event.status == Active ==> after.status == SubActive) && (event.status == Trialing ==> after.status == SubTrialing)
        && (event.status == Revoked ==> after.status == SubRevoked) && (event.status == Expired ==> after.status == SubExpired)
        && (event.status == Pending ==> after.status == SubUnknown)
        && (event.status == Suspended && event.pastDueNotice ==> after.status == SubPastDue)
        && (event.status == Suspended && !event.pastDueNotice ==> after.status == SubSuspended)
        && after.rawStatus == info.rawStatus && after.cancelAtPeriodEnd == info.cancelAtPeriodEnd
        && (info.planId.Some? ==> after.planId == info.planId)
  {
  }
}
