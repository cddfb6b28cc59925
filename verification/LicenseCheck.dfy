/** One licence check: grants, device gate, answer and lease. */
module LicenseCheck {
  import opened Options
  import opened Moments
  import opened EntitlementRules
  import opened CurrentGrants
  import Devices
  import Lease

  datatype Customer = Customer(id: string, maxDevices: Option<int>)

  datatype LicenseStatus =
    | InvalidRequest | UnknownCustomer | DeviceBlocked | DeviceLimitExceeded | LicenseActive
    | AccessRevoked | AccessSuspended | AccessExpired | Unlicensed

  /** `fingerprint` is the stripped machine fingerprint; `customer` is the row the identifiers found. */
  datatype Request = Request(
    customer: Option<Customer>, fingerprint: string, appVersion: Option<string>,
    client: Devices.Client, defaultMax: int, gracePeriod: int)

  /** `states` are the effective grants behind the entitlement states; some answers carry none. */
  datatype Response = Response(
    status: LicenseStatus, licensed: seq<Candidate>, states: seq<Candidate>, lease: Option<Lease.Claims>)

  predicate VisibleTo(client: Devices.Client, product: Product) {
    match client
    case Nt8 => product.nt8Enabled && product.hasNt8Key
    case Trader => product.traderEnabled
    case OtherClient => true
  }

  function ForClient(grants: seq<Candidate>, client: Devices.Client): (visible: seq<Candidate>)
    ensures forall g :: g in visible <==> g in grants && VisibleTo(client, g.product)
  {
    if grants == [] then []
    else (if VisibleTo(client, grants[0].product) then [grants[0]] else []) + ForClient(grants[1..], client)
  }

  predicate OnePerProduct(grants: seq<Candidate>) {
    forall i, j :: 0 <= i < j < |grants| ==> grants[i].row.product != grants[j].row.product
  }

  lemma {:induction false} ForClientKeepsOnePerProduct(grants: seq<Candidate>, client: Devices.Client)
    requires OnePerProduct(grants)
    ensures OnePerProduct(ForClient(grants, client))
  {
    if grants != [] {
      var rest := ForClient(grants[1..], client);
      assert forall i :: 0 <= i < |grants[1..]| ==> grants[1..][i] == grants[i + 1];
      ForClientKeepsOnePerProduct(grants[1..], client);
      forall j | 0 <= j < |rest|
        ensures rest[j].row.product != grants[0].row.product
      {
        assert rest[j] in grants[1..];
      }
      assert ForClient(grants, client) == if VisibleTo(client, grants[0].product) then [grants[0]] + rest else rest;
    }
  }

  function LicensedOf(grants: seq<Candidate>, now: int): (licensed: seq<Candidate>)
    ensures forall g :: g in licensed <==> g in grants && Licensed(g, now)
  {
    if grants == [] then []
    else (if Licensed(grants[0], now) then [grants[0]] else []) + LicensedOf(grants[1..], now)
  }

  /** Why there is no licence, strongest reason first. */
  function BlockingStatus(grants: seq<Candidate>, now: int): (status: LicenseStatus)
    ensures status in {AccessRevoked, AccessSuspended, AccessExpired, Unlicensed}
  {
    if exists g :: g in grants && (EffectiveStatus(g.key, g.row, now) == Revoked || g.row.revokedAt.Some?) then AccessRevoked
    else if exists g :: g in grants && EffectiveStatus(g.key, g.row, now) == Suspended then AccessSuspended
    else if grants != [] && ((exists g :: g in grants && EffectiveStatus(g.key, g.row, now) == Expired)
                             || (forall g :: g in grants ==> g.row.expiresAt.Some? && g.row.expiresAt.value <= now)) then AccessExpired
    else Unlicensed
  }

  function LeaseGrants(licensed: seq<Candidate>): seq<Lease.Entitled> {
    seq(|licensed|, i requires 0 <= i < |licensed| => Lease.Entitled(licensed[i].product.feature, licensed[i].row.expiresAt))
  }

  // ----- What an answer means, in terms of all rows -----

  /** Rows of one product carry the same product columns. */
  predicate Joined(rows: seq<Candidate>) {
    forall i, j :: 0 <= i < |rows| && 0 <= j < |rows| && rows[i].row.product == rows[j].row.product ==> rows[i].product == rows[j].product
  }

  /** Some row licenses some product open to this client. */
  predicate HasLicence(rows: seq<Candidate>, client: Devices.Client, now: int) {
    exists i :: 0 <= i < |rows| && VisibleTo(client, rows[i].product) && Licensed(rows[i], now)
  }

  /** One best row for each product open to the client. */
  predicate States(rows: seq<Candidate>, client: Devices.Client, states: seq<Candidate>, now: int) {
    && (forall g :: g in states ==> IsBest(rows, g.row.product, g, now) && VisibleTo(client, g.product))
    && OnePerProduct(states)
    && (forall i :: 0 <= i < |rows| && VisibleTo(client, rows[i].product) ==> rows[i].row.product in Products(states))
  }

  function DeviceCheck(request: Request, licensed: bool, now: int): Devices.Check
    requires request.customer.Some?
  {
    Devices.Check(request.customer.value.id, request.fingerprint, request.appVersion, request.client,
                  Devices.EffectiveMax(request.customer.value.maxDevices, request.defaultMax), licensed, now)
  }

  /** Some row licenses this product, and it is open to the client. */
  predicate IsHeld(rows: seq<Candidate>, client: Devices.Client, product: string, now: int) {
    exists i :: 0 <= i < |rows| && rows[i].row.product == product && VisibleTo(client, rows[i].product) && Licensed(rows[i], now)
  }

  predicate Admissible(request: Request) {
    request.fingerprint != "" && request.customer.Some?
  }

  /** What one check does to the device table and answers, in terms of all the customer's rows. */
  ghost predicate Answers(hasSigner: bool, before: seq<Devices.Device>, request: Request, rows: seq<Candidate>, now: int,
                          response: Response, after: seq<Devices.Device>) {
    && (if Admissible(request) then AnswersDevice(before, request, rows, now, response, after)
        else (after == before && response.states == []
              && response.status == if request.fingerprint == "" then InvalidRequest else UnknownCustomer))
    && response.licensed == (if response.status == LicenseActive then LicensedOf(response.states, now) else [])
    && response.lease == (if response.status == LicenseActive && request.client.Trader?
                          then Lease.IssueLease(hasSigner, request.gracePeriod, LeaseGrants(response.licensed), now) else None)
  }

  ghost predicate AnswersDevice(before: seq<Devices.Device>, request: Request, rows: seq<Candidate>, now: int,
                                response: Response, after: seq<Devices.Device>)
    requires Admissible(request)
  {
    var check := DeviceCheck(request, HasLicence(rows, request.client, now), now);
    && after == Devices.AfterCheck(before, check)
    && (match Devices.AnswerTo(before, check)
        case DeviceBlocked => response.status == DeviceBlocked && response.states == []
        case LimitExceeded => response.status == DeviceLimitExceeded && States(rows, request.client, response.states, now)
        case NotLicensed => response.status == BlockingStatus(response.states, now) && States(rows, request.client, response.states, now)
        case Active => response.status == LicenseActive && States(rows, request.client, response.states, now))
  }

  lemma ForClientCovers(rows: seq<Candidate>, grants: seq<Candidate>, client: Devices.Client, now: int)
    requires Joined(rows)
    requires forall i :: 0 <= i < |rows| ==> rows[i].row.product in Products(grants)
    requires forall k :: 0 <= k < |grants| ==> IsBest(rows, grants[k].row.product, grants[k], now)
    ensures forall i :: 0 <= i < |rows| && VisibleTo(client, rows[i].product) ==> rows[i].row.product in Products(ForClient(grants, client))
    ensures forall g :: g in ForClient(grants, client) ==> IsBest(rows, g.row.product, g, now)
  {
    var states := ForClient(grants, client);
    forall i | 0 <= i < |rows| && VisibleTo(client, rows[i].product)
      ensures rows[i].row.product in Products(states)
    {
      var k :| 0 <= k < |grants| && grants[k].row.product == rows[i].row.product;
      assert IsBest(rows, grants[k].row.product, grants[k], now);
      assert grants[k] in rows && grants[k] in states;
      var n :| 0 <= n < |states| && states[n] == grants[k];
    }
  }

  /** The status an entitlement state shows for an effective grant. */
  function StateLabel(g: Candidate, now: int): Status {
    var status := EffectiveStatus(g.key, g.row, now);
    if Licensed(g, now) then Active
    else if g.row.revokedAt.Some? then Revoked
    else if status !in {Revoked, Suspended, Expired} && g.row.expiresAt.Some? && g.row.expiresAt.value <= now then Expired
    else status
  }

  /** A product open to the client is labelled "active" exactly when some row licenses it, or its effective grant is
      an active row kept out of force only by an inactive product or a later start. */
  lemma ActiveLabels(rows: seq<Candidate>, client: Devices.Client, states: seq<Candidate>, g: Candidate, now: int)
    requires Joined(rows) && States(rows, client, states, now) && g in states
    ensures StateLabel(g, now) == Active <==>
      AnyLicensed(rows, g.row.product, now)
      || (EffectiveStatus(g.key, g.row, now) == Active && g.row.revokedAt.None?
          && (g.row.expiresAt.Some? ==> now < g.row.expiresAt.value)
          && (!g.product.active || (g.row.startsAt.Some? && now < g.row.startsAt.value)))
  {
    var i :| 0 <= i < |rows| && rows[i] == g;
    assert Licensed(g, now) ==> Licensed(rows[i], now);
  }

  /** What a state reads for a product nothing licenses: revoked when a revocation is on record, expired when the row is
      marked so or has run out unless it is suspended, and else the row's status. */
  lemma LabelsByColumns(g: Candidate, now: int)
    requires !Licensed(g, now)
    ensures StateLabel(g, now) == Revoked <==> g.row.status == Revoked || g.row.revokedAt.Some?
    ensures StateLabel(g, now) == Suspended <==> g.row.status == Suspended && g.row.revokedAt.None?
    ensures StateLabel(g, now) == Expired <==>
      (g.row.revokedAt.None? && g.row.status !in {Revoked, Suspended}
       && (RunOut(g, now) || (g.row.status == Expired && (g.key.Manual? || g.row.expiresAt.None?))))
    ensures StateLabel(g, now) in {Trialing, Pending} ==> StateLabel(g, now) == g.row.status
  {
  }

  /** An active row of an inactive product is labelled "active" although nothing licenses it. */
  lemma ActiveLabelWithoutLicence(row: Row, product: Product, now: int)
    requires row.status == Active && row.revokedAt.None? && row.expiresAt.None? && !product.active
    ensures var g := Candidate(Manual("m"), row, product);
      StateLabel(g, now) == Active && !AnyLicensed([g], row.product, now) && BlockingStatus([g], now) == Unlicensed
  {
  }

  lemma LicensedProductIsHeld(rows: seq<Candidate>, client: Devices.Client, states: seq<Candidate>, now: int, product: string)
    requires States(rows, client, states, now) && product in Products(LicensedOf(states, now))
    ensures IsHeld(rows, client, product, now)
  {
    var licensed := LicensedOf(states, now);
    var k :| 0 <= k < |licensed| && licensed[k].row.product == product;
    var g := licensed[k];
    assert g in licensed && IsBest(rows, g.row.product, g, now);
    var i :| 0 <= i < |rows| && rows[i] == g;
    assert VisibleTo(client, rows[i].product) && Licensed(rows[i], now);
  }

  lemma HeldProductIsLicensed(rows: seq<Candidate>, client: Devices.Client, states: seq<Candidate>, now: int, product: string)
    requires Joined(rows) && States(rows, client, states, now) && IsHeld(rows, client, product, now)
    ensures product in Products(LicensedOf(states, now))
  {
    var licensed := LicensedOf(states, now);
    var i :| 0 <= i < |rows| && rows[i].row.product == product && VisibleTo(client, rows[i].product) && Licensed(rows[i], now);
    var k :| 0 <= k < |states| && states[k].row.product == product;
    assert AnyLicensed(rows, product, now) && states[k] in states;
    assert states[k] in licensed;
    var n :| 0 <= n < |licensed| && licensed[n] == states[k];
  }

  /** The products an active answer licenses are the held ones. */
  lemma LicensedProductsAreHeld(rows: seq<Candidate>, client: Devices.Client, states: seq<Candidate>, now: int, product: string)
    requires Joined(rows) && States(rows, client, states, now)
    ensures product in Products(LicensedOf(states, now)) <==> IsHeld(rows, client, product, now)
  {
    if product in Products(LicensedOf(states, now)) {
      LicensedProductIsHeld(rows, client, states, now, product);
    }
    if IsHeld(rows, client, product, now) {
      HeldProductIsLicensed(rows, client, states, now, product);
    }
  }

  lemma StatesDecideLicence(rows: seq<Candidate>, client: Devices.Client, states: seq<Candidate>, now: int)
    requires Joined(rows) && States(rows, client, states, now)
    ensures HasLicence(rows, client, now) <==> LicensedOf(states, now) != []
  {
    var licensed := LicensedOf(states, now);
    if HasLicence(rows, client, now) {
      var i :| 0 <= i < |rows| && VisibleTo(client, rows[i].product) && Licensed(rows[i], now);
      HeldProductIsLicensed(rows, client, states, now, rows[i].row.product);
    }
    if licensed != [] {
      LicensedProductIsHeld(rows, client, states, now, licensed[0].row.product);
    }
  }

  /** An answer is active exactly when the request is admissible and the device check says so. */
  lemma ActiveExactlyWhenAdmitted(hasSigner: bool, before: seq<Devices.Device>, request: Request, rows: seq<Candidate>, now: int,
                                  response: Response, after: seq<Devices.Device>)
    requires Answers(hasSigner, before, request, rows, now, response, after)
    ensures response.status == LicenseActive <==>
      (Admissible(request) && Devices.AnswerTo(before, DeviceCheck(request, HasLicence(rows, request.client, now), now)) == Devices.Active)
    ensures response.status == LicenseActive ==> States(rows, request.client, response.states, now)
    ensures response.status != LicenseActive ==> response.licensed == [] && response.lease.None?
  {
  }

  /** An active TraderPro answer always carries a lease, and while that lease is accepted every licensed row is unexpired. */
  lemma ActiveAnswerCarriesLease(states: seq<Candidate>, gracePeriod: int, now: int, t: int)
    requires gracePeriod > 0
    requires forall g :: g in states && g.row.expiresAt.Some? ==> Whole(g.row.expiresAt.value)
    ensures var lease := Lease.IssueLease(true, gracePeriod, LeaseGrants(LicensedOf(states, now)), now);
      lease.Some? && (Lease.VerifyTimes(Lease.IntClaim(lease.value.iat), Lease.IntClaim(lease.value.nbf), Lease.IntClaim(lease.value.exp), t) == Lease.Accepted ==>
        forall g :: g in LicensedOf(states, now) && g.row.expiresAt.Some? ==> t * SECOND < g.row.expiresAt.value)
  {
    var licensed := LicensedOf(states, now);
    var grants := LeaseGrants(licensed);
    assert forall i :: 0 <= i < |licensed| ==> licensed[i] in licensed;
    Lease.LicensedGrantsGetALease(gracePeriod, grants, now);
    Lease.LeaseIsExactAndBounded(true, gracePeriod, grants, now, t);
    var c := Lease.IssueLease(true, gracePeriod, grants, now).value;
    forall g | g in licensed && g.row.expiresAt.Some?
      ensures t < c.exp ==> t * SECOND < g.row.expiresAt.value
    {
      var i :| 0 <= i < |licensed| && licensed[i] == g;
      assert c.features[i] == Lease.FeatureOf(grants[i]);
      assert c.features[i].exp == Some(g.row.expiresAt.value / SECOND);
    }
  }

  /** The customer's own limit, else the default, and at least one. */
  function Limit(request: Request): int
    requires request.customer.Some?
  {
    var limit := if request.customer.value.maxDevices.Some? then request.customer.value.maxDevices.value else request.defaultMax;
    if limit < 1 then 1 else limit
  }

  /** A stored machine `i` of the request's customer. */
  predicate IsMachineOf(devices: seq<Devices.Device>, request: Request, i: nat)
    requires request.customer.Some?
  {
    i < |devices| && devices[i].customer == request.customer.value.id && devices[i].fingerprint == request.fingerprint
  }

  /** A stored machine gets an active answer exactly when it is not blocked, some row licenses a product open to the client,
      and fewer than the limit of the customer's unblocked licensed machines come before it, or, if it was never licensed,
      exist at all. */
  lemma MachineIsServedExactly(hasSigner: bool, before: seq<Devices.Device>, request: Request, rows: seq<Candidate>, now: int,
                               response: Response, after: seq<Devices.Device>, i: nat)
    requires Answers(hasSigner, before, request, rows, now, response, after) && Devices.UniqueMachines(before)
    requires request.fingerprint != "" && request.customer.Some? && IsMachineOf(before, request, i)
    ensures response.status == LicenseActive <==>
      (!before[i].blocked && (exists product :: IsHeld(rows, request.client, product, now))
       && (if before[i].firstLicensed.Some? then |Devices.EarlierMachines(before, request.customer.value.id, i)| < Limit(request)
           else |Devices.LicensedMachines(before, request.customer.value.id)| < Limit(request)))
  {
    var check := DeviceCheck(request, HasLicence(rows, request.client, now), now);
    ActiveExactlyWhenAdmitted(hasSigner, before, request, rows, now, response, after);
    LicenceIsHeldProduct(rows, request.client, now);
    Devices.OtherMachineAnswer(before, check, i);
    if !before[i].blocked && before[i].firstLicensed.Some? {
      Devices.LicensedMachineAnswer(before, check, i);
    }
  }

  lemma LicenceIsHeldProduct(rows: seq<Candidate>, client: Devices.Client, now: int)
    ensures HasLicence(rows, client, now) <==> exists product :: IsHeld(rows, client, product, now)
  {
    if HasLicence(rows, client, now) {
      var i :| 0 <= i < |rows| && VisibleTo(client, rows[i].product) && Licensed(rows[i], now);
      assert IsHeld(rows, client, rows[i].row.product, now);
    }
  }

  /** A check refreshes the machine's row: seen now, with this client and this version if one is given; an active answer
      also dates its licence, the first one for good. */
  lemma MachineRowIsRefreshed(hasSigner: bool, before: seq<Devices.Device>, request: Request, rows: seq<Candidate>, now: int,
                              response: Response, after: seq<Devices.Device>, i: nat)
    requires Answers(hasSigner, before, request, rows, now, response, after) && Devices.UniqueMachines(before)
    requires request.fingerprint != "" && request.customer.Some? && IsMachineOf(before, request, i)
    ensures |after| == |before| && forall j :: 0 <= j < |before| && j != i ==> after[j] == before[j]
    ensures after[i].customer == before[i].customer && after[i].fingerprint == before[i].fingerprint
    ensures after[i].firstSeen == before[i].firstSeen && after[i].lastSeen == Iso(now) && after[i].blocked == before[i].blocked
    ensures after[i].client == request.client && after[i].appVersion == (if request.appVersion.Some? then request.appVersion else before[i].appVersion)
    ensures response.status == LicenseActive ==>
      after[i].lastLicensed == Some(Iso(now))
      && after[i].firstLicensed == (if before[i].firstLicensed.Some? then before[i].firstLicensed else Some(Iso(now)))
    ensures response.status != LicenseActive ==>
      after[i].lastLicensed == before[i].lastLicensed && after[i].firstLicensed == before[i].firstLicensed
  {
    var check := DeviceCheck(request, HasLicence(rows, request.client, now), now);
    ActiveExactlyWhenAdmitted(hasSigner, before, request, rows, now, response, after);
    Devices.FoundAt(before, check, i);
  }

  /** NinjaTrader clients see enabled products with a strategy key, TraderPro clients enabled ones, other clients all. */
  lemma VisibleByColumns(client: Devices.Client, product: Product)
    ensures client.Nt8? ==> (VisibleTo(client, product) <==> product.nt8Enabled && product.hasNt8Key)
    ensures client.Trader? ==> (VisibleTo(client, product) <==> product.traderEnabled)
    ensures client.OtherClient? ==> VisibleTo(client, product)
  {
  }

  predicate RevokedRow(g: Candidate) {
    g.row.status == Revoked || g.row.revokedAt.Some?
  }

  predicate SuspendedRow(g: Candidate) {
    g.row.status == Suspended
  }

  predicate RunOut(g: Candidate, now: int) {
    g.row.expiresAt.Some? && g.row.expiresAt.value <= now
  }

  /** Marked expired, and not a Whop row whose end still lies ahead. */
  predicate ExpiredRow(g: Candidate, now: int) {
    g.row.status == Expired && (g.key.Manual? || g.row.revokedAt.Some? || g.row.expiresAt.None? || RunOut(g, now))
  }

  /** Without a licence the answer names a revocation before a suspension, a suspension before an expiry, and an expiry when
      one row is expired or all have run out. */
  lemma BlockingByColumns(grants: seq<Candidate>, now: int)
    ensures BlockingStatus(grants, now) ==
      if exists g :: g in grants && RevokedRow(g) then AccessRevoked
      else if exists g :: g in grants && SuspendedRow(g) then AccessSuspended
      else if grants != [] && ((exists g :: g in grants && ExpiredRow(g, now)) || (forall g :: g in grants ==> RunOut(g, now)))
      then AccessExpired
      else Unlicensed
  {
    forall g | g in grants
      ensures EffectiveStatus(g.key, g.row, now) == Revoked <==> g.row.status == Revoked
      ensures EffectiveStatus(g.key, g.row, now) == Suspended <==> SuspendedRow(g)
      ensures EffectiveStatus(g.key, g.row, now) == Expired <==> ExpiredRow(g, now)
    {
    }
    if g :| g in grants && RevokedRow(g) {
      assert EffectiveStatus(g.key, g.row, now) == Revoked || g.row.revokedAt.Some?;
    }
    if g :| g in grants && SuspendedRow(g) {
      assert EffectiveStatus(g.key, g.row, now) == Suspended;
    }
    if g :| g in grants && ExpiredRow(g, now) {
      assert EffectiveStatus(g.key, g.row, now) == Expired;
    }
    assert (forall g :: g in grants ==> RunOut(g, now)) <==>
      (forall g :: g in grants ==> g.row.expiresAt.Some? && g.row.expiresAt.value <= now);
  }

  function StatusFor(answer: Devices.Answer, states: seq<Candidate>, now: int): LicenseStatus {
    match answer
    case DeviceBlocked => DeviceBlocked
    case LimitExceeded => DeviceLimitExceeded
    case NotLicensed => BlockingStatus(states, now)
    case Active => LicenseActive
  }

  lemma AnswerIsDeviceAnswer(before: seq<Devices.Device>, request: Request, rows: seq<Candidate>, now: int, states: seq<Candidate>,
                             licensed: bool, answer: Devices.Answer, response: Response, after: seq<Devices.Device>)
    requires Admissible(request) && States(rows, request.client, states, now) && licensed == HasLicence(rows, request.client, now)
    requires var check := DeviceCheck(request, licensed, now);
      answer == Devices.AnswerTo(before, check) && after == Devices.AfterCheck(before, check)
    requires response.states == if answer == Devices.DeviceBlocked then [] else states
    requires response.status == StatusFor(answer, states, now)
    ensures AnswersDevice(before, request, rows, now, response, after)
  {
  }

  class LicenseDesk {
    var devices: seq<Devices.Device>
    const hasSigner: bool

    constructor (hasSigner: bool)
      ensures devices == [] && this.hasSigner == hasSigner
    {
      devices := [];
      this.hasSigner := hasSigner;
    }

    /** The customer's grants open to this client. */
    method EffectiveGrants(rows: seq<Candidate>, client: Devices.Client, now: int) returns (states: seq<Candidate>)
      requires Joined(rows)
      ensures States(rows, client, states, now)
    {
      var grants := SelectGrants(rows, now);
      states := ForClient(grants, client);
      ForClientKeepsOnePerProduct(grants, client);
      ForClientCovers(rows, grants, client, now);
    }

    /** Finds or inserts the machine's row. */
    method UpsertDevice(check: Devices.Check) returns (i: nat)
      modifies this
      ensures devices == Devices.Seen(old(devices), check)
      ensures i == Devices.IndexOf(devices, check.customer, check.fingerprint)
    {
      i := 0;
      while i < |devices| && !Devices.Matches(devices[i], check.customer, check.fingerprint)
        invariant i <= |devices|
        invariant forall j :: 0 <= j < i ==> !Devices.Matches(devices[j], check.customer, check.fingerprint)
      {
        i := i + 1;
      }
      if i < |devices| {
        assert Devices.Knows(devices, check.customer, check.fingerprint);
        devices := devices[i := devices[i].(lastSeen := Iso(check.now),
                                            appVersion := check.appVersion.Or(devices[i].appVersion), client := check.client)];
        assert Devices.Matches(devices[i], check.customer, check.fingerprint);
      } else {
        devices := devices + [Devices.Device(check.customer, check.fingerprint, Iso(check.now), Iso(check.now),
                                             None, None, false, check.appVersion, check.client)];
        assert Devices.Matches(devices[i], check.customer, check.fingerprint);
      }
    }

    /** Reports the machine in and, if a licence is held, admits it within the limit. */
    method Admit(check: Devices.Check) returns (answer: Devices.Answer)
      modifies this
      ensures answer == Devices.AnswerTo(old(devices), check)
      ensures devices == Devices.AfterCheck(old(devices), check)
    {
      var i := UpsertDevice(check);
      if devices[i].blocked {
        return Devices.DeviceBlocked;
      }
      if !check.licensed {
        return Devices.NotLicensed;
      }
      var counted, allowed := Devices.Counted(devices, check.customer), Devices.Allowed(devices, check.customer, check.maxDevices);
      if (i !in counted && |counted| >= check.maxDevices) || (i in counted && i !in allowed) {
        return Devices.LimitExceeded;
      }
      devices := devices[i := devices[i].(firstLicensed := devices[i].firstLicensed.Or(Some(Iso(check.now))), lastLicensed := Some(Iso(check.now)))];
      return Devices.Active;
    }

    /** `rows` are the customer's entitlement rows joined with their products. */
    method CheckLicense(request: Request, rows: seq<Candidate>, now: int) returns (response: Response)
      requires Joined(rows)
      modifies this
      ensures Answers(hasSigner, old(devices), request, rows, now, response, devices)
    {
      if request.fingerprint == "" {
        return Response(InvalidRequest, [], [], None);
      }
      if request.customer.None? {
        return Response(UnknownCustomer, [], [], None);
      }
      response := CheckMachine(request, rows, now);
    }

    /** The check of an identified customer's machine. */
    method CheckMachine(request: Request, rows: seq<Candidate>, now: int) returns (response: Response)
      requires Joined(rows) && Admissible(request)
      modifies this
      ensures AnswersDevice(old(devices), request, rows, now, response, devices)
      ensures response.licensed == if response.status == LicenseActive then LicensedOf(response.states, now) else []
      ensures response.lease == if response.status == LicenseActive && request.client.Trader?
        then Lease.IssueLease(hasSigner, request.gracePeriod, LeaseGrants(response.licensed), now) else None
    {
      var states := EffectiveGrants(rows, request.client, now);
      StatesDecideLicence(rows, request.client, states, now);
      var licensed := LicensedOf(states, now) != [];
      ghost var before := devices;
      var answer := Admit(DeviceCheck(request, licensed, now));
      response := Respond(request, states, answer, now);
      AnswerIsDeviceAnswer(before, request, rows, now, states, licensed, answer, response, devices);
    }

    /** The response to an admissible request, once the device has been answered. */
    method Respond(request: Request, states: seq<Candidate>, answer: Devices.Answer, now: int) returns (response: Response)
      ensures response.states == if answer == Devices.DeviceBlocked then [] else states
      ensures response.status == StatusFor(answer, states, now)
      ensures response.licensed == if response.status == LicenseActive then LicensedOf(response.states, now) else []
      ensures response.lease == if response.status == LicenseActive && request.client.Trader?
        then Lease.IssueLease(hasSigner, request.gracePeriod, LeaseGrants(response.licensed), now) else None
    {
      match answer
      case DeviceBlocked => return Response(DeviceBlocked, [], [], None);
      case NotLicensed => return Response(BlockingStatus(states, now), [], states, None);
      case LimitExceeded => return Response(DeviceLimitExceeded, [], states, None);
      case Active =>
        var licensed, lease := LicensedOf(states, now), None;
        if request.client.Trader? {
          lease := Lease.IssueLease(hasSigner, request.gracePeriod, LeaseGrants(licensed), now);
        }
        return Response(LicenseActive, licensed, states, lease);
    }
  }
}
