/** Private products in the manifest: shown only to a customer who is licensed and may see one of their releases. */
module Catalog {
  import opened Options
  import opened Moments
  import opened CurrentGrants
  import opened Selection
  import opened Releases
  import opened ReleaseOrder
  import Devices
  import LicenseCheck
  import Lease

  datatype Listing = Listing(feature: string, active: bool, traderEnabled: bool, isPrivate: bool)

  /** One licence check: the device table before and after, the request, its instant, and the response. */
  datatype Visit = Visit(
    before: seq<Devices.Device>, request: LicenseCheck.Request, now: int, response: LicenseCheck.Response, after: seq<Devices.Device>)

  ghost predicate IsVisit(v: Visit, hasSigner: bool, grants: seq<Candidate>) {
    LicenseCheck.Answers(hasSigner, v.before, v.request, grants, v.now, v.response, v.after)
  }

  predicate IsActive(v: Visit) {
    v.response.status == LicenseCheck.LicenseActive
  }

  /** The licence part of a manifest: granted entries, products with an entitlement state, top-level end and lease. */
  datatype License = License(licensed: seq<Candidate>, states: seq<string>, expiresAt: Option<int>, lease: Option<Lease.Claims>)

  function PrivateIds(products: map<string, Listing>): set<string> {
    set p | p in products && products[p].isPrivate
  }

  /** The release lets this viewer see its product. */
  predicate Reveals(r: Release, product: string, viewer: Viewer) {
    Published(r) && r.platform == viewer.platform && IsPackage(r) && r.productId == Some(product) && VisibleTo(r, viewer)
  }

  /** `isActive` is whether the licence answer was "active". */
  function VisiblePrivateIds(products: map<string, Listing>, rows: seq<Release>, viewer: Viewer, isActive: bool, licensed: set<string>): set<string> {
    if !isActive then {}
    else
      set p | p in products && products[p].isPrivate && products[p].active && products[p].traderEnabled && p in licensed
        && exists r :: r in rows && Reveals(r, p, viewer)
  }

  function HiddenIds(products: map<string, Listing>, rows: seq<Release>, viewer: Viewer, isActive: bool, licensed: set<string>): set<string> {
    PrivateIds(products) - VisiblePrivateIds(products, rows, viewer, isActive, licensed)
  }

  function Keep(licensed: seq<Candidate>, hidden: set<string>): (kept: seq<Candidate>)
    ensures forall g :: g in kept <==> g in licensed && g.row.product !in hidden
    ensures |kept| <= |licensed| && (|kept| == |licensed| ==> kept == licensed)
  {
    if licensed == [] then []
    else (if licensed[0].row.product in hidden then [] else [licensed[0]]) + Keep(licensed[1..], hidden)
  }

  function KeepStates(states: seq<string>, hidden: set<string>): (kept: seq<string>)
    ensures forall p :: p in kept <==> p in states && p !in hidden
    ensures |kept| <= |states| && (|kept| == |states| ==> kept == states)
  {
    if states == [] then [] else (if states[0] in hidden then [] else [states[0]]) + KeepStates(states[1..], hidden)
  }

  function EarliestEnd(licensed: seq<Candidate>): Option<int> {
    if licensed == [] then None
    else Earlier(licensed[0].row.expiresAt, EarliestEnd(licensed[1..]))
  }

  lemma {:induction false} EarliestEndIsMinimum(licensed: seq<Candidate>)
    ensures EarliestEnd(licensed).None? <==> forall g :: g in licensed ==> g.row.expiresAt.None?
    ensures EarliestEnd(licensed).Some? ==>
      (exists g :: g in licensed && g.row.expiresAt == EarliestEnd(licensed))
      && forall g :: g in licensed && g.row.expiresAt.Some? ==> EarliestEnd(licensed).value <= g.row.expiresAt.value
  {
    if licensed != [] {
      EarliestEndIsMinimum(licensed[1..]);
      assert licensed == [licensed[0]] + licensed[1..];
      assert licensed[0] in licensed;
      if EarliestEnd(licensed).Some? && EarliestEnd(licensed) != licensed[0].row.expiresAt {
        var g :| g in licensed[1..] && g.row.expiresAt == EarliestEnd(licensed[1..]);
        assert g in licensed;
      }
    }
  }

  /** The licence shown in the manifest; a changed one gets its lease reissued for what is left. */
  function ShownLicense(license: License, hidden: set<string>, hasSigner: bool, gracePeriod: int, now: int): License {
    var kept, states := Keep(license.licensed, hidden), KeepStates(license.states, hidden);
    if |kept| == |license.licensed| && |states| == |license.states| then license
    else
      var lease := if license.lease.Some? && kept != []
                   then Lease.IssueLease(hasSigner, gracePeriod, LicenseCheck.LeaseGrants(kept), now) else None;
      License(kept, states, EarliestEnd(kept), lease)
  }

  function Packages(products: map<string, Listing>, visiblePrivate: set<string>): set<string> {
    set p | p in products && products[p].active && products[p].traderEnabled && (products[p].isPrivate ==> p in visiblePrivate)
  }

  // ----- What the manifest gives away -----

  /** The grant's product is active, enabled for TraderPro, and has the feature the grant carries. */
  predicate IsSold(g: Candidate, products: map<string, Listing>) {
    var p := g.row.product;
    p in products && products[p].active && products[p].traderEnabled && g.product.feature == products[p].feature
  }

  /** The rows' product columns are those of the catalog. */
  predicate Listed(grants: seq<Candidate>, products: map<string, Listing>) {
    forall g :: g in grants ==>
      && g.row.product in products && g.product.active == products[g.row.product].active
      && g.product.traderEnabled == products[g.row.product].traderEnabled && g.product.feature == products[g.row.product].feature
  }

  /** The licence part before anything is hidden. */
  function LicenseOf(response: LicenseCheck.Response): License {
    License(response.licensed, seq(|response.states|, i requires 0 <= i < |response.states| => response.states[i].row.product),
            EarliestEnd(response.licensed), response.lease)
  }

  /** The package releases of a manifest: chosen from the whole licence after an active answer, none after any other. */
  ghost predicate IsManifest(response: LicenseCheck.Response, rows: seq<Release>, viewer: Viewer, types: set<string>, selected: seq<Release>) {
    if response.status == LicenseCheck.LicenseActive then
      IsSelection(Candidates(rows, Products(response.licensed), viewer.platform, types), RulesFor(viewer, ByPackage), selected)
    else selected == []
  }

  /** Every product a TraderPro answer licenses is sold. */
  lemma LicensedProductsAreSold(v: Visit, hasSigner: bool, grants: seq<Candidate>, products: map<string, Listing>)
    requires IsVisit(v, hasSigner, grants) && Listed(grants, products) && v.request.client.Trader?
    ensures forall g :: g in v.response.licensed ==> IsSold(g, products)
  {
    LicenseCheck.ActiveExactlyWhenAdmitted(hasSigner, v.before, v.request, grants, v.now, v.response, v.after);
    forall g | g in v.response.licensed
      ensures IsSold(g, products)
    {
      assert g in v.response.states && IsBest(grants, g.row.product, g, v.now);
      assert g in grants && Licensed(g, v.now);
    }
  }

  /** Some active, published package release of the product on the viewer's platform is visible to the viewer. */
  ghost predicate HasVisibleRelease(rows: seq<Release>, product: string, viewer: Viewer) {
    exists r :: r in rows && r.isActive && r.isPublished != Some(false) && r.platform == viewer.platform && r.productId == Some(product)
      && Kind(r) in {"strategy_package", "extension_package"}
      && Admits(r, viewer.person, viewer.bucket(viewer.person.id, r.id)) && OnChannel(r, viewer)
  }

  lemma RevealsByColumns(r: Release, product: string, viewer: Viewer)
    ensures Reveals(r, product, viewer) <==>
      (r.isActive && r.isPublished != Some(false) && r.platform == viewer.platform && r.productId == Some(product)
       && Kind(r) in {"strategy_package", "extension_package"}
       && Admits(r, viewer.person, viewer.bucket(viewer.person.id, r.id)) && OnChannel(r, viewer))
  {
    VisibleByColumns(r, viewer);
  }

  /** A private product is hidden unless the answer is active, the product active, enabled and licensed, and some release of
      it visible; a product that is not private is never hidden, and what is active, enabled and not hidden is listed. */
  lemma HiddenByColumns(products: map<string, Listing>, rows: seq<Release>, viewer: Viewer, isActive: bool, licensed: set<string>, p: string)
    ensures p in HiddenIds(products, rows, viewer, isActive, licensed) <==>
      (p in products && products[p].isPrivate
       && !(isActive && products[p].active && products[p].traderEnabled && p in licensed && HasVisibleRelease(rows, p, viewer)))
    ensures p in Packages(products, VisiblePrivateIds(products, rows, viewer, isActive, licensed)) <==>
      (p in products && products[p].active && products[p].traderEnabled && p !in HiddenIds(products, rows, viewer, isActive, licensed))
  {
    assert HasVisibleRelease(rows, p, viewer) <==> exists r :: r in rows && Reveals(r, p, viewer) by {
      if r :| r in rows && Reveals(r, p, viewer) {
        RevealsByColumns(r, p, viewer);
      }
      if HasVisibleRelease(rows, p, viewer) {
        var r :| r in rows && r.isActive && r.isPublished != Some(false) && r.platform == viewer.platform && r.productId == Some(p)
          && Kind(r) in {"strategy_package", "extension_package"}
          && Admits(r, viewer.person, viewer.bucket(viewer.person.id, r.id)) && OnChannel(r, viewer);
        RevealsByColumns(r, p, viewer);
      }
    }
  }

  /** When something is hidden, a lease in the answer is replaced by one for exactly the grants shown, if any are left and
      the grace period and their ends allow it; otherwise the answer is shown as it is. */
  lemma ShownLeaseIsForShownGrants(license: License, hidden: set<string>, hasSigner: bool, gracePeriod: int, now: int)
    ensures var shown := ShownLicense(license, hidden, hasSigner, gracePeriod, now);
      && ((forall g :: g in license.licensed ==> g.row.product !in hidden) && (forall p :: p in license.states ==> p !in hidden)
          ==> shown == license)
      && (shown != license && shown.lease.Some? ==>
            license.lease.Some? && shown.lease.value.iat == now / SECOND && |shown.lease.value.features| == |shown.licensed|
            && forall i :: 0 <= i < |shown.licensed| ==> shown.lease.value.features[i].id == shown.licensed[i].product.feature)
      && (shown != license && license.lease.Some? && shown.licensed != [] && hasSigner && gracePeriod > 0
          && (forall g :: g in shown.licensed && g.row.expiresAt.Some? ==> now / SECOND < g.row.expiresAt.value / SECOND)
          ==> shown.lease.Some?)
  {
    var kept := Keep(license.licensed, hidden);
    KeptWhenNothingHidden(license.licensed, hidden);
    StatesWhenNothingHidden(license.states, hidden);
    Lease.LeaseIsIssuedExactly(hasSigner, gracePeriod, LicenseCheck.LeaseGrants(kept), now);
    assert forall i :: 0 <= i < |kept| ==> kept[i] in kept;
  }

  lemma {:induction false} KeptWhenNothingHidden(licensed: seq<Candidate>, hidden: set<string>)
    ensures (forall g :: g in licensed ==> g.row.product !in hidden) ==> Keep(licensed, hidden) == licensed
  {
    if licensed != [] {
      KeptWhenNothingHidden(licensed[1..], hidden);
    }
  }

  lemma {:induction false} StatesWhenNothingHidden(states: seq<string>, hidden: set<string>)
    ensures (forall p :: p in states ==> p !in hidden) ==> KeepStates(states, hidden) == states
  {
    if states != [] {
      StatesWhenNothingHidden(states[1..], hidden);
    }
  }

  predicate UniqueFeatures(products: map<string, Listing>) {
    forall p, q :: p in products && q in products && p != q ==> products[p].feature != products[q].feature
  }

  predicate LeaseMentions(lease: Option<Lease.Claims>, feature: string) {
    lease.Some? && exists i :: 0 <= i < |lease.value.features| && lease.value.features[i].id == feature
  }

  lemma LeaseIsSilentAboutOthers(hasSigner: bool, gracePeriod: int, licensed: seq<Candidate>, now: int, feature: string)
    requires forall g :: g in licensed ==> g.product.feature != feature
    ensures !LeaseMentions(Lease.IssueLease(hasSigner, gracePeriod, LicenseCheck.LeaseGrants(licensed), now), feature)
  {
    assert forall i :: 0 <= i < |licensed| ==> licensed[i] in licensed;
  }

  /** A private product whose release is offered is a visible one, although releases are chosen from the whole licence. */
  lemma OfferedPrivateProductIsVisible(license: License, products: map<string, Listing>, rows: seq<Release>, viewer: Viewer,
                                       types: set<string>, selected: seq<Release>, r: Release)
    requires forall g :: g in license.licensed ==> IsSold(g, products)
    requires IsSelection(Candidates(rows, Products(license.licensed), viewer.platform, types), RulesFor(viewer, ByPackage), selected)
    requires r in selected
    ensures r.productId.Some? && r.productId.value !in HiddenIds(products, rows, viewer, true, Products(license.licensed))
  {
    var licensed := Products(license.licensed);
    SelectedIsOffered(rows, licensed, viewer, types, selected, r);
    var p := r.productId.value;
    var i :| 0 <= i < |license.licensed| && license.licensed[i].row.product == p;
    assert license.licensed[i] in license.licensed;
    assert Reveals(r, p, viewer);
  }

  /** Whatever the licence answer, no hidden private product appears anywhere in the manifest, and everything else is
      kept; without an active answer every private product is hidden. */
  lemma PrivateProductsStayOut(v: Visit, hasSigner: bool, grants: seq<Candidate>, products: map<string, Listing>, rows: seq<Release>,
                               viewer: Viewer, types: set<string>, selected: seq<Release>, now: int, product: string)
    requires IsVisit(v, hasSigner, grants) && Listed(grants, products) && UniqueFeatures(products) && v.request.client.Trader?
    requires IsManifest(v.response, rows, viewer, types, selected)
    ensures var license, licensed := LicenseOf(v.response), Products(v.response.licensed);
      var hidden := HiddenIds(products, rows, viewer, IsActive(v), licensed);
      var shown := ShownLicense(license, hidden, hasSigner, v.request.gracePeriod, now);
      && (!IsActive(v) ==> hidden == PrivateIds(products))
      && (product in hidden ==>
            && product !in Packages(products, VisiblePrivateIds(products, rows, viewer, IsActive(v), licensed))
            && (forall r :: r in selected ==> r.productId != Some(product))
            && product !in Products(shown.licensed) && product !in shown.states
            && !LeaseMentions(shown.lease, products[product].feature))
      && shown.licensed == Keep(license.licensed, hidden) && shown.states == KeepStates(license.states, hidden)
      && shown.expiresAt == EarliestEnd(shown.licensed)
  {
    var license := LicenseOf(v.response);
    var hidden := HiddenIds(products, rows, viewer, IsActive(v), Products(v.response.licensed));
    LicensedProductsAreSold(v, hasSigner, grants, products);
    if product in hidden {
      forall r | r in selected
        ensures r.productId != Some(product)
      {
        OfferedPrivateProductIsVisible(license, products, rows, viewer, types, selected, r);
      }
      KeptFeatures(license.licensed, hidden, products, product);
      ShownLeaseIsSilent(license, hidden, hasSigner, v.request.gracePeriod, v.now, now, products[product].feature);
    }
  }

  lemma KeptFeatures(licensed: seq<Candidate>, hidden: set<string>, products: map<string, Listing>, product: string)
    requires UniqueFeatures(products) && product in products && product in hidden
    requires forall g :: g in licensed ==> IsSold(g, products)
    ensures product !in Products(Keep(licensed, hidden))
    ensures forall g :: g in Keep(licensed, hidden) ==> g.product.feature != products[product].feature
  {
    var kept := Keep(licensed, hidden);
    forall g | g in kept
      ensures g.row.product != product && g.product.feature != products[product].feature
    {
      assert IsSold(g, products);
    }
    assert forall i :: 0 <= i < |kept| ==> kept[i] in kept;
  }

  lemma ShownLeaseIsSilent(license: License, hidden: set<string>, hasSigner: bool, gracePeriod: int, checkedAt: int, now: int, feature: string)
    requires license.lease.Some? ==>
      license.lease == Lease.IssueLease(hasSigner, gracePeriod, LicenseCheck.LeaseGrants(license.licensed), checkedAt)
    requires forall g :: g in Keep(license.licensed, hidden) ==> g.product.feature != feature
    ensures !LeaseMentions(ShownLicense(license, hidden, hasSigner, gracePeriod, now).lease, feature)
  {
    var kept := Keep(license.licensed, hidden);
    LeaseIsSilentAboutOthers(hasSigner, gracePeriod, kept, checkedAt, feature);
    LeaseIsSilentAboutOthers(hasSigner, gracePeriod, kept, now, feature);
  }

  // ----- From the manifest to the download -----

  datatype TokenResult = LicenceRefused(status: LicenseCheck.LicenseStatus) | Answered(answer: TokenAnswer)

  /** A token request: its own licence check first, then the release. */
  function RequestToken(response: LicenseCheck.Response, rows: seq<Release>, id: string, viewer: Viewer): TokenResult {
    if response.status != LicenseCheck.LicenseActive then LicenceRefused(response.status)
    else Answered(DownloadToken(rows, id, Products(response.licensed), viewer))
  }

  /** The next visit of the same caller: the same licence, machine, client and limit. */
  predicate Follows(first: Visit, again: Visit) {
    && again.before == first.after
    && again.request == first.request.(appVersion := again.request.appVersion, gracePeriod := again.request.gracePeriod)
  }

  /** A machine just admitted passes its next check for as long as a licence is held. */
  lemma AdmittedAgain(first: Visit, again: Visit, hasSigner: bool, grants: seq<Candidate>)
    requires IsVisit(first, hasSigner, grants) && IsVisit(again, hasSigner, grants) && Follows(first, again)
    requires Devices.UniqueMachines(first.before) && IsActive(first)
    requires LicenseCheck.HasLicence(grants, first.request.client, again.now)
    ensures IsActive(again)
  {
    LicenseCheck.ActiveExactlyWhenAdmitted(hasSigner, first.before, first.request, grants, first.now, first.response, first.after);
    LicenseCheck.ActiveExactlyWhenAdmitted(hasSigner, again.before, again.request, grants, again.now, again.response, again.after);
    var check := LicenseCheck.DeviceCheck(first.request, LicenseCheck.HasLicence(grants, first.request.client, first.now), first.now);
    Devices.ActiveMachineIsNeverDisplaced(first.before, check, [], LicenseCheck.DeviceCheck(again.request, true, again.now));
    assert [check] + [] == [check] && [check][1..] == [];
    assert Devices.AfterChecks(first.before, [check]) == Devices.AfterCheck(first.before, check);
  }

  /** The products a visit licenses: the held ones if it is active, none otherwise. */
  lemma VisitLicenses(v: Visit, hasSigner: bool, grants: seq<Candidate>, product: string)
    requires IsVisit(v, hasSigner, grants) && LicenseCheck.Joined(grants)
    ensures product in Products(v.response.licensed) <==>
      (IsActive(v) && LicenseCheck.IsHeld(grants, v.request.client, product, v.now))
  {
    LicenseCheck.ActiveExactlyWhenAdmitted(hasSigner, v.before, v.request, grants, v.now, v.response, v.after);
    if IsActive(v) {
      LicenseCheck.LicensedProductsAreHeld(grants, v.request.client, v.response.states, v.now, product);
    }
  }

  /** A listed release of this package type gets its token exactly when the check before it licenses the product. */
  lemma TokenNeedsProduct(v: Visit, rows: seq<Release>, licensed: set<string>, viewer: Viewer, types: set<string>, selected: seq<Release>, r: Release)
    requires UniqueIds(rows) && r in selected
    requires IsSelection(Candidates(rows, licensed, viewer.platform, types), RulesFor(viewer, ByPackage), selected)
    ensures r.productId.Some?
    ensures RequestToken(v.response, rows, r.id, viewer) == Answered(TokenFor(r)) <==>
      (IsActive(v) && r.productId.value in Products(v.response.licensed))
  {
    SelectedIsOffered(rows, licensed, viewer, types, selected, r);
    UniqueRow(rows, r);
  }

  /** After an active manifest, each release in it gets its token on the machine just admitted, for exactly as long as its
      product is held. */
  lemma ManifestThenTokens(first: Visit, again: Visit, hasSigner: bool, grants: seq<Candidate>, rows: seq<Release>, viewer: Viewer,
                           types: set<string>, selected: seq<Release>, r: Release)
    requires IsVisit(first, hasSigner, grants) && IsVisit(again, hasSigner, grants) && Follows(first, again)
    requires LicenseCheck.Joined(grants) && Devices.UniqueMachines(first.before) && UniqueIds(rows)
    requires IsManifest(first.response, rows, viewer, types, selected) && r in selected
    ensures r.productId.Some?
    ensures RequestToken(again.response, rows, r.id, viewer) == Answered(TokenFor(r)) <==>
      LicenseCheck.IsHeld(grants, first.request.client, r.productId.value, again.now)
  {
    TokenNeedsProduct(again, rows, Products(first.response.licensed), viewer, types, selected, r);
    VisitLicenses(again, hasSigner, grants, r.productId.value);
    if LicenseCheck.IsHeld(grants, first.request.client, r.productId.value, again.now) {
      AdmittedAgain(first, again, hasSigner, grants);
    }
  }

  lemma SameInstantSameProducts(first: Visit, again: Visit, hasSigner: bool, grants: seq<Candidate>)
    requires IsVisit(first, hasSigner, grants) && IsVisit(again, hasSigner, grants) && Follows(first, again) && again.now == first.now
    requires LicenseCheck.Joined(grants) && Devices.UniqueMachines(first.before) && IsActive(first)
    ensures IsActive(again) && Products(again.response.licensed) == Products(first.response.licensed)
  {
    LicenseCheck.ActiveExactlyWhenAdmitted(hasSigner, first.before, first.request, grants, first.now, first.response, first.after);
    AdmittedAgain(first, again, hasSigner, grants);
    forall product
      ensures product in Products(again.response.licensed) <==> product in Products(first.response.licensed)
    {
      VisitLicenses(first, hasSigner, grants, product);
      VisitLicenses(again, hasSigner, grants, product);
    }
  }

  /** At one instant the manifest and the tokens agree: both checks license the same products, each release in the manifest
      gets its token, and each token for a requested package release is covered by the manifest. */
  lemma TokensAtOnce(first: Visit, again: Visit, hasSigner: bool, grants: seq<Candidate>, rows: seq<Release>, viewer: Viewer,
                     types: set<string>, selected: seq<Release>)
    requires IsVisit(first, hasSigner, grants) && IsVisit(again, hasSigner, grants) && Follows(first, again) && again.now == first.now
    requires LicenseCheck.Joined(grants) && Devices.UniqueMachines(first.before) && UniqueIds(rows) && IsActive(first)
    requires IsManifest(first.response, rows, viewer, types, selected)
    ensures IsActive(again) && Products(again.response.licensed) == Products(first.response.licensed)
    ensures forall r :: r in selected ==> RequestToken(again.response, rows, r.id, viewer) == Answered(TokenFor(r))
    ensures forall id :: Tokened(rows, id, Products(again.response.licensed), viewer, types) ==>
      Covers(selected, DownloadToken(rows, id, Products(again.response.licensed), viewer).release)
  {
    SameInstantSameProducts(first, again, hasSigner, grants);
    TokensMatchManifest(rows, Products(first.response.licensed), viewer, types, selected);
  }
}
