/** What one Whop event does to one entitlement row, to the grant ledger and to its subscription. */
module EntitlementRules {
  import opened Options
  import opened Moments

  datatype Status = Active | Trialing | Expired | Revoked | Suspended | Pending

  datatype Kind = Trial | Paid | Renewal | Revoke | Expire | Suspend | Ignored

  datatype SubscriptionStatus = SubActive | SubTrialing | SubPastDue | SubExpired | SubRevoked | SubSuspended | SubUnknown

  /** The fields read from the payload. Identifiers are absent or non-empty. */
  datatype Info = Info(
    membershipId: Option<string>, entitlementId: Option<string>, planId: Option<string>,
    rawStatus: string, periodStart: Option<int>, expiresAt: Option<int>,
    trialEndsAt: Option<int>, paymentId: Option<string>, cancelAtPeriodEnd: bool)

  /** A payload with its normalized status and the words its event type was searched for. */
  datatype Event = Event(info: Info, status: Status, cancelNotice: bool, renewNotice: bool, pastDueNotice: bool)

  datatype Package = Package(id: string, whopId: string, defaultDays: Option<nat>, isActive: bool, isIgnored: bool)

  datatype Grant = Grant(product: string, days: Option<nat>)

  /** One product grant of one delivered package event. */
  datatype Application = Application(customer: string, package: Package, grant: Grant, event: Event, webhookId: string)

  /** The identity of an entitlement row: the pair of external id and package id is unique. */
  datatype Source =
    | Direct(externalId: string)
    | Packaged(root: string, packageId: string, productId: string)
    | Manual(id: string)

  datatype Row = Row(
    customer: string, product: string, subscription: Option<string>, status: Status,
    startsAt: Option<int>, expiresAt: Option<int>, revokedAt: Option<int>,
    whopEvent: Option<string>, createdAt: int, updatedAt: int)

  /** The text a ledger fingerprint hashes; the hash is taken to be injective. */
  datatype Fingerprint =
    | TrialGrant(member: string, packageId: string, product: string, trialEnd: Option<int>)
    | PaymentGrant(payment: string, product: string)
    | PeriodStartGrant(member: string, packageId: string, product: string, start: int)
    | PeriodGrant(member: string, packageId: string, product: string, end: Option<int>)
    | OtherEvent(kind: Kind, webhookId: string, product: string)

  datatype LedgerRow = LedgerRow(
    fingerprint: Fingerprint, customer: string, packageId: string, product: string,
    subscription: Option<string>, entitlement: Source, webhookId: string, kind: Kind, daysApplied: nat,
    periodStart: Option<int>, periodEnd: Option<int>,
    expiresBefore: Option<int>, expiresAfter: Option<int>, appliedAt: int)

  datatype Subscription = Subscription(
    customer: string, planId: Option<string>, status: SubscriptionStatus, rawStatus: string,
    periodStart: Option<int>, periodEnd: Option<int>, cancelAtPeriodEnd: bool, createdAt: int, updatedAt: int)

  /** The rows Whop events write. A subscription's id stands for its unique membership id. */
  datatype Db = Db(
    entitlements: map<Source, Row>, ledger: seq<LedgerRow>, subscriptions: map<string, Subscription>)

  function RowAt(db: Db, key: Source): Option<Row> {
    if key in db.entitlements then Some(db.entitlements[key]) else None
  }

  // ----- Classifying an event -----

  function GrantKind(event: Event): Kind {
    if event.cancelNotice then Ignored
    else match event.status
      case Revoked => Revoke
      case Expired => Expire
      case Suspended => Suspend
      case Trialing => Trial
      case Active => if event.renewNotice then Renewal else Paid
      case Pending => if event.renewNotice then Renewal else Ignored
  }

  predicate Granting(kind: Kind) {
    kind in {Trial, Paid, Renewal}
  }

  predicate Paying(kind: Kind) {
    kind in {Paid, Renewal}
  }

  function SubscriptionStatusOf(event: Event): SubscriptionStatus {
    match event.status
    case Active => SubActive
    case Trialing => SubTrialing
    case Suspended => if event.pastDueNotice then SubPastDue else SubSuspended
    case Revoked => SubRevoked
    case Expired => SubExpired
    case Pending => SubUnknown
  }

  /** The end a grant aims for. `now` stands in for a missing period start. */
  function ExpiryTarget(kind: Kind, info: Info, days: Option<nat>, now: int): Option<int> {
    if kind == Trial then
      var explicit := info.trialEndsAt.Or(info.expiresAt);
      if explicit.Some? then explicit
      else if days.None? then None
      else Some(info.periodStart.GetOr(now) + days.value * DAY)
    else if !Paying(kind) || days.None? then info.expiresAt
    else Later(info.expiresAt, Some(info.periodStart.GetOr(now) + days.value * DAY))
  }

  // ----- Package grants -----

  function Root(a: Application): string {
    a.event.info.membershipId.Or(a.event.info.entitlementId).GetOr(a.package.whopId + ":" + a.customer)
  }

  function Key(a: Application): Source {
    Packaged(Root(a), a.package.id, a.grant.product)
  }

  function Days(a: Application): Option<nat> {
    if a.grant.days.Some? then a.grant.days else a.package.defaultDays
  }

  function KindOf(a: Application): Kind {
    GrantKind(a.event)
  }

  /** A payment with no dates at all adds its days after the current coverage. */
  predicate Relative(a: Application) {
    Paying(KindOf(a)) && Days(a).Some? && a.event.info.periodStart.None? && a.event.info.expiresAt.None?
  }

  function Target(a: Application, before: Option<int>, now: int): Option<int> {
    if Relative(a) then Some(Later(before, Some(now)).value + Days(a).value * DAY)
    else ExpiryTarget(KindOf(a), a.event.info, Days(a), now)
  }

  function FingerprintOf(a: Application): Fingerprint {
    var info := a.event.info;
    var member := info.membershipId.Or(info.entitlementId).GetOr(a.customer);
    var kind := KindOf(a);
    if kind == Trial then
      TrialGrant(member, a.package.id, a.grant.product, IsoOption(info.trialEndsAt.Or(info.expiresAt)))
    else if Paying(kind) then
      if info.paymentId.Some? then PaymentGrant(info.paymentId.value, a.grant.product)
      else if info.periodStart.Some? then
        PeriodStartGrant(member, a.package.id, a.grant.product, Iso(info.periodStart.value))
      else PeriodGrant(member, a.package.id, a.grant.product, IsoOption(info.expiresAt))
    else OtherEvent(kind, a.webhookId, a.grant.product)
  }

  predicate Recorded(ledger: seq<LedgerRow>, fingerprint: Fingerprint) {
    exists i :: 0 <= i < |ledger| && ledger[i].fingerprint == fingerprint
  }

  /** The unique index on ledger fingerprints. */
  predicate FingerprintsUnique(ledger: seq<LedgerRow>) {
    forall i, j :: 0 <= i < j < |ledger| ==> ledger[i].fingerprint != ledger[j].fingerprint
  }

  /** The row counts as days already paid for this period of this subscription. */
  predicate PaysPeriod(row: LedgerRow, customer: string, packageId: string, product: string, subscription: string, start: int) {
    && row.customer == customer && row.packageId == packageId && row.product == product
    && row.subscription == Some(subscription)
    && Paying(row.kind) && row.daysApplied > 0 && row.periodStart == Some(start)
  }

  predicate PeriodPaid(ledger: seq<LedgerRow>, a: Application) {
    var info := a.event.info;
    && Paying(KindOf(a)) && info.membershipId.Some? && info.periodStart.Some?
    && (exists i :: 0 <= i < |ledger| && PaysPeriod(ledger[i], a.customer, a.package.id, a.grant.product,
                                                    info.membershipId.value, Iso(info.periodStart.value)))
  }

  /** The ledger already holds this grant, by fingerprint or by paid period. */
  predicate Duplicate(ledger: seq<LedgerRow>, a: Application) {
    Granting(KindOf(a)) && (Recorded(ledger, FingerprintOf(a)) || PeriodPaid(ledger, a))
  }

  /** The grant reaches past the row's finite expiry. */
  predicate Improves(row: Row, target: Option<int>) {
    row.expiresAt.Some? && target.Some? && target.value > row.expiresAt.value
  }

  function StartsAfter(existing: Option<Row>, event: Event, now: int): int {
    var stored := if existing.Some? then existing.value.startsAt else None;
    var starts := Earlier(stored, event.info.periodStart).GetOr(now);
    if Paying(GrantKind(event)) && now < starts then now else starts
  }

  /** Either nothing happens, or the row takes this status and these times. */
  datatype Decision = Skip | Write(status: Status, expiresAt: Option<int>, revokedAt: Option<int>, days: nat)

  /** A grant the ledger knows is skipped, unless it is dated and improves a dated row. */
  predicate SkipsGrant(existing: Option<Row>, duplicate: bool, a: Application, now: int) {
    duplicate && (Relative(a) || existing.None? || !Improves(existing.value, Target(a, existing.value.expiresAt, now)))
  }

  function DaysGranted(existing: Option<Row>, duplicate: bool, expires: Option<int>, a: Application, now: int): nat {
    var improved := existing.None? || Improves(existing.value, expires);
    if duplicate || !improved then 0
    else if KindOf(a) == Trial && expires.Some? then CeilDays(expires.value - now)
    else Days(a).GetOr(0)
  }

  function DecideGrant(existing: Option<Row>, duplicate: bool, a: Application, now: int): Decision
    requires Granting(KindOf(a))
  {
    if SkipsGrant(existing, duplicate, a, now) then Skip
    else match existing
      case None =>
        var target := Target(a, None, now);
        Write(a.event.status, target, None, DaysGranted(existing, duplicate, target, a, now))
      case Some(row) =>
        var expires := if row.expiresAt.None? then None else Later(row.expiresAt, Target(a, row.expiresAt, now));
        var days := DaysGranted(existing, duplicate, expires, a, now);
        if row.status in {Revoked, Suspended} && !Improves(row, expires) then Write(row.status, expires, row.revokedAt, days)
        else if row.status == Active && KindOf(a) == Trial then Write(Active, expires, None, days)
        else Write(a.event.status, expires, None, days)
  }

  function Before(existing: Option<Row>): Option<int> {
    if existing.Some? then existing.value.expiresAt else None
  }

  /** The row's coverage has not run out. */
  predicate Running(existing: Option<Row>, now: int) {
    existing.Some? && (existing.value.expiresAt.None? || existing.value.expiresAt.value > now)
  }

  /** An expiry notice leaves running coverage in force, with the end given as `kept`. */
  function DecideExpire(existing: Option<Row>, kept: Option<int>, target: Option<int>, now: int): Decision {
    if Running(existing, now) then
      var row := existing.value;
      var status := if row.status == Expired && row.revokedAt.None? then Active else row.status;
      Write(status, kept, row.revokedAt, 0)
    else Write(Expired, Some(Before(existing).Or(target).GetOr(now)), None, 0)
  }

  function DecidePackage(existing: Option<Row>, duplicate: bool, a: Application, now: int): Decision {
    var before := Before(existing);
    var target := Target(a, before, now);
    match KindOf(a)
    case Revoke => Write(Revoked, if existing.Some? then before else target, Some(Iso(now)), 0)
    case Expire => DecideExpire(existing, before, target, now)
    case Suspend => Write(Suspended, before.Or(target), None, 0)
    case Ignored => Skip
    case _ => DecideGrant(existing, duplicate, a, now)
  }

  function Decide(db: Db, a: Application, now: int): Decision {
    DecidePackage(RowAt(db, Key(a)), Duplicate(db.ledger, a), a, now)
  }

  function WrittenRow(existing: Option<Row>, customer: string, product: string, event: Event,
                      decision: Decision, webhookId: string, now: int): Row
    requires decision.Write?
  {
    Row(customer, product, event.info.membershipId, decision.status,
        Some(Iso(StartsAfter(existing, event, now))), IsoOption(decision.expiresAt), decision.revokedAt,
        Some(webhookId), if existing.Some? then existing.value.createdAt else Iso(now), Iso(now))
  }

  function LedgerEntry(a: Application, before: Option<int>, decision: Decision, now: int): LedgerRow
    requires decision.Write?
  {
    LedgerRow(FingerprintOf(a), a.customer, a.package.id, a.grant.product, a.event.info.membershipId, Key(a),
              a.webhookId, KindOf(a), decision.days, IsoOption(a.event.info.periodStart), IsoOption(a.event.info.expiresAt),
              IsoOption(before), IsoOption(decision.expiresAt), Iso(now))
  }

  function Record(ledger: seq<LedgerRow>, entry: LedgerRow): seq<LedgerRow> {
    if Recorded(ledger, entry.fingerprint) then ledger else ledger + [entry]
  }

  function ApplyGrant(db: Db, a: Application, now: int): Db {
    var existing := RowAt(db, Key(a));
    var decision := Decide(db, a, now);
    if decision.Skip? then db
    else
      db.(entitlements := db.entitlements[Key(a) := WrittenRow(existing, a.customer, a.grant.product, a.event, decision, a.webhookId, now)],
          ledger := Record(db.ledger, LedgerEntry(a, Before(existing), decision, now)))
  }

  // ----- Products mapped directly -----

  function DirectKey(event: Event, webhookId: string): Source {
    Direct(event.info.membershipId.Or(event.info.entitlementId).GetOr(webhookId))
  }

  /** No ledger and no day count: a direct row only follows the payload's own end. */
  function DecideDirect(existing: Option<Row>, event: Event, now: int): Decision {
    var kind := GrantKind(event);
    var target := ExpiryTarget(kind, event.info, None, now);
    var expires := match existing
      case None => target
      case Some(row) => if row.expiresAt.None? then None else Later(row.expiresAt, target);
    match kind
    case Revoke => Write(Revoked, expires, Some(Iso(now)), 0)
    case Expire => DecideExpire(existing, expires, target, now)
    case Suspend => Write(Suspended, Before(existing).Or(expires), None, 0)
    case Ignored => Skip
    case _ =>
      if existing.Some? && existing.value.status in {Revoked, Suspended} && !Improves(existing.value, expires) then
        Write(existing.value.status, expires, existing.value.revokedAt, 0)
      else if existing.Some? && existing.value.status == Active && kind == Trial then Write(Active, expires, None, 0)
      else Write(event.status, expires, None, 0)
  }

  function ApplyDirect(db: Db, customer: string, product: string, event: Event, webhookId: string, now: int): Db {
    var key := DirectKey(event, webhookId);
    var existing := RowAt(db, key);
    var decision := DecideDirect(existing, event, now);
    if decision.Skip? then db
    else db.(entitlements := db.entitlements[key := WrittenRow(existing, customer, product, event, decision, webhookId, now)])
  }

  // ----- Subscriptions -----

  /** An expiry that is older than the stored end, or says nothing while that end lies ahead. */
  predicate StaleTerminal(stored: Subscription, event: Event, now: int) {
    && SubscriptionStatusOf(event) == SubExpired && stored.periodEnd.Some?
    && if event.info.expiresAt.None? then stored.periodEnd.value > now
       else event.info.expiresAt.value < stored.periodEnd.value
  }

  function SavedSubscription(stored: Option<Subscription>, customer: string, event: Event, now: int): Subscription {
    var info := event.info;
    match stored
    case None =>
      Subscription(customer, info.planId, SubscriptionStatusOf(event), info.rawStatus,
                   IsoOption(info.periodStart), IsoOption(info.expiresAt), info.cancelAtPeriodEnd, Iso(now), Iso(now))
    case Some(s) =>
      var kept := s.(customer := customer,
                     periodStart := IsoOption(Later(s.periodStart, info.periodStart)),
                     periodEnd := IsoOption(Later(s.periodEnd, info.expiresAt)),
                     updatedAt := Iso(now));
      if StaleTerminal(s, event, now) then kept
      else kept.(status := SubscriptionStatusOf(event), rawStatus := info.rawStatus,
                 planId := info.planId.Or(s.planId), cancelAtPeriodEnd := info.cancelAtPeriodEnd)
  }

  function ApplySubscription(db: Db, customer: string, event: Event, now: int): Db {
    if event.info.membershipId.None? then db
    else
      var id := event.info.membershipId.value;
      var stored := if id in db.subscriptions then Some(db.subscriptions[id]) else None;
      db.(subscriptions := db.subscriptions[id := SavedSubscription(stored, customer, event, now)])
  }

  // ----- Reading a row -----

  /** A Whop row that expired early counts as active while its stored end lies ahead. */
  function EffectiveStatus(key: Source, row: Row, now: int): Status {
    if !key.Manual? && row.status == Expired && row.revokedAt.None? && row.expiresAt.Some? && row.expiresAt.value > now then Active
    else row.status
  }

  predicate InForce(key: Source, row: Row, now: int) {
    && EffectiveStatus(key, row, now) in {Active, Trialing}
    && row.revokedAt.None?
    && (row.startsAt.None? || row.startsAt.value <= now)
    && (row.expiresAt.None? || row.expiresAt.value > now)
  }
}
