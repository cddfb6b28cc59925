/** Which releases a customer may see, which one of each package is offered, and who gets a download token. */
module Releases {
  import opened Options
  import opened Selection
  import Versions

  /** An unknown stored mode reads as `All`. */
  datatype Mode = All | Allowlist | Roles | Percent | Disabled

  /** A release row joined with its product's slug. */
  datatype Release = Release(
    id: string, productId: Option<string>, productSlug: Option<string>, scope: string, releaseType: Option<string>,
    productKey: Option<string>, channel: string, platform: string, version: string,
    isRequired: bool, isActive: bool, isPublished: Option<bool>, createdAt: int, updatedAt: int,
    mode: Mode, allowedIds: set<string>, allowedEmails: set<string>, allowedHashes: set<string>,
    requiredTags: set<string>, rolloutPercent: Option<int>)

  datatype Person = Person(id: string, email: Option<string>, licenseHash: Option<string>, tags: set<string>)

  /** The caller: the customer, the requested channel and platform, and the rollout bucket of (customer, release). */
  datatype Viewer = Viewer(person: Person, channel: string, platform: string, bucket: (string, string) -> int)

  const STRATEGY := "strategy_package"
  const EXTENSION := "extension_package"
  const DESKTOP := "trader_desktop"
  const DESKTOP_KEY := "trader-desktop"

  function TypeOf(r: Release): string {
    r.releaseType.GetOr(if r.scope == "app" then DESKTOP else STRATEGY)
  }

  predicate IsPackage(r: Release) {
    TypeOf(r) == STRATEGY || TypeOf(r) == EXTENSION
  }

  predicate Published(r: Release) {
    r.isActive && r.isPublished.GetOr(r.isActive)
  }

  function Priority(channel: string): nat {
    if channel == "beta" then 1 else if channel == "canary" then 2 else if channel == "internal" then 3 else 0
  }

  // ----- Visibility -----

  datatype Denial =
    | AudienceDisabled | TagRequired | AllowlistMiss | RoleMiss | RolloutMiss | ChannelDenied

  function Clamp(percent: Option<int>): int {
    var p := percent.GetOr(100);
    if p < 0 then 0 else if p > 100 then 100 else p
  }

  predicate OnAllowlist(r: Release, person: Person) {
    || person.id in r.allowedIds
    || (person.email.Some? && person.email.value in r.allowedEmails)
    || (person.licenseHash.Some? && person.licenseHash.value in r.allowedHashes)
  }

  function AudienceDenial(r: Release, viewer: Viewer): Option<Denial> {
    var person := viewer.person;
    var shared := r.requiredTags * person.tags;
    if r.mode == Disabled then Some(AudienceDisabled)
    else if r.channel == "internal" && "internal" in person.tags then None
    else match r.mode
      case Allowlist => if OnAllowlist(r, person) || shared != {} then None else Some(AllowlistMiss)
      case Roles => if shared != {} then None else Some(RoleMiss)
      case Percent =>
        if r.requiredTags != {} && shared == {} then Some(TagRequired)
        else if Clamp(r.rolloutPercent) >= 100 then None
        else if Clamp(r.rolloutPercent) > 0 && viewer.bucket(person.id, r.id) < Clamp(r.rolloutPercent) then None
        else Some(RolloutMiss)
      case _ => if r.requiredTags == {} || shared != {} then None else Some(TagRequired)
  }

  const EARLY_TAGS := {"tester", "desktop_beta", "duo_beta", "duorc_beta", "early_access"}

  function VisibilityDenial(r: Release, viewer: Viewer): Option<Denial> {
    var denial := AudienceDenial(r, viewer);
    var tags := viewer.person.tags;
    if denial.Some? then denial
    else if Priority(r.channel) <= Priority(viewer.channel) then None
    else if r.mode == Allowlist || r.mode == Roles then None
    else if "internal" in tags && r.channel in {"beta", "canary", "internal"} then None
    else if tags * EARLY_TAGS != {} && r.channel in {"beta", "canary"} then None
    else Some(ChannelDenied)
  }

  predicate VisibleTo(r: Release, viewer: Viewer) {
    VisibilityDenial(r, viewer).None?
  }

  // ----- Choosing one release of a group -----

  function CompareLists(left: seq<nat>, right: seq<nat>): int {
    if left == [] || right == [] then |left| - |right|
    else if left[0] != right[0] then left[0] - right[0]
    else CompareLists(left[1..], right[1..])
  }

  function Required(r: Release): int {
    if r.isRequired then 1 else 0
  }

  /** Channel, required flag, update time, creation time, version parts, in that order. */
  function CompareKeys(left: Release, right: Release): int {
    if Priority(left.channel) != Priority(right.channel) then Priority(left.channel) - Priority(right.channel)
    else if left.isRequired != right.isRequired then Required(left) - Required(right)
    else if left.updatedAt != right.updatedAt then left.updatedAt - right.updatedAt
    else if left.createdAt != right.createdAt then left.createdAt - right.createdAt
    else CompareLists(Versions.Parts(Some(left.version)), Versions.Parts(Some(right.version)))
  }

  predicate Above(left: Release, right: Release) {
    CompareKeys(left, right) > 0
  }

  lemma {:induction false} ListsAreOrdered(x: seq<nat>, y: seq<nat>, z: seq<nat>)
    ensures CompareLists(x, y) > 0 ==> CompareLists(y, x) < 0
    ensures CompareLists(x, y) <= 0 && CompareLists(y, z) <= 0 ==> CompareLists(x, z) <= 0
    ensures CompareLists(x, x) == 0
    ensures CompareLists(x, y) <= 0 ==> CompareLists(y, x) >= 0
    decreases |x|
  {
    if x != [] {
      ListsAreOrdered(x[1..], if y == [] then [] else y[1..], if z == [] then [] else z[1..]);
    }
  }

  lemma KeysAreOrdered(x: Release, y: Release, z: Release)
    ensures Above(x, y) ==> !Above(y, x)
    ensures !Above(x, y) && !Above(y, z) ==> !Above(x, z)
  {
    var a, b, c := Versions.Parts(Some(x.version)), Versions.Parts(Some(y.version)), Versions.Parts(Some(z.version));
    ListsAreOrdered(a, b, c);
    ListsAreOrdered(b, a, c);
  }

  datatype Grouping = ByPackage | ByProductKey

  function GroupOf(grouping: Grouping, r: Release): string {
    match grouping
    case ByPackage => TypeOf(r) + ":" + r.productKey.Or(r.productSlug).Or(r.productId).GetOr("None")
    case ByProductKey => r.productKey.Or(r.productId).GetOr(r.id)
  }

  function RulesFor(viewer: Viewer, grouping: Grouping): Rules<Release, Denial> {
    Rules(r => VisibilityDenial(r, viewer), r => GroupOf(grouping, r), (x, y) => Above(x, y))
  }

  lemma KeysRank(viewer: Viewer, grouping: Grouping)
    ensures IsRanking(RulesFor(viewer, grouping))
  {
    var rules := RulesFor(viewer, grouping);
    forall x, y
      ensures rules.above(x, y) ==> !rules.above(y, x)
    {
      KeysAreOrdered(x, y, y);
    }
    forall x, y, z
      ensures !rules.above(x, y) && !rules.above(y, z) ==> !rules.above(x, z)
    {
      KeysAreOrdered(x, y, z);
    }
  }

  // ----- Manifest and download token -----

  predicate Offered(r: Release, licensed: set<string>, platform: string, types: set<string>) {
    Published(r) && r.platform == platform && IsPackage(r) && TypeOf(r) in types && r.productId.Some? && r.productId.value in licensed
  }

  /** The candidate query, in the query's row order. */
  function Candidates(rows: seq<Release>, licensed: set<string>, platform: string, types: set<string>): (found: seq<Release>)
    ensures forall r :: r in found <==> r in rows && Offered(r, licensed, platform, types)
  {
    if rows == [] then []
    else (if Offered(rows[0], licensed, platform, types) then [rows[0]] else []) + Candidates(rows[1..], licensed, platform, types)
  }

  method ManifestReleases(rows: seq<Release>, licensed: set<string>, viewer: Viewer, types: set<string>)
      returns (selected: seq<Release>, denied: seq<(Release, Denial)>)
    ensures IsSelection(Candidates(rows, licensed, viewer.platform, types), RulesFor(viewer, ByPackage), selected)
    ensures denied == DeniedOf(Candidates(rows, licensed, viewer.platform, types), RulesFor(viewer, ByPackage))
  {
    KeysRank(viewer, ByPackage);
    selected, denied := SelectVisible(Candidates(rows, licensed, viewer.platform, types), RulesFor(viewer, ByPackage));
  }

  datatype TokenAnswer = NotFound | NotLicensed | AudienceDenied(reason: Denial) | TokenFor(release: Release)

  predicate UniqueIds(rows: seq<Release>) {
    forall i, j :: 0 <= i < j < |rows| ==> rows[i].id != rows[j].id
  }

  function Find(rows: seq<Release>, id: string): (found: Option<Release>)
    ensures found.Some? ==> found.value in rows && found.value.id == id
    ensures found.None? ==> forall r :: r in rows ==> r.id != id
  {
    if rows == [] then None else if rows[0].id == id then Some(rows[0]) else Find(rows[1..], id)
  }

  function DownloadToken(rows: seq<Release>, id: string, licensed: set<string>, viewer: Viewer): TokenAnswer {
    var found := Find(rows, id);
    if found.None? || !Published(found.value) || found.value.platform != viewer.platform then NotFound
    else
      var r := found.value;
      if IsPackage(r) && (r.productId.None? || r.productId.value !in licensed) then NotLicensed
      else
        var denial := VisibilityDenial(r, viewer);
        if denial.Some? then AudienceDenied(denial.value) else TokenFor(r)
  }

  /** The manifest has an entry of this release's group that the release does not outrank. */
  predicate Covers(selected: seq<Release>, r: Release) {
    exists k :: 0 <= k < |selected| && GroupOf(ByPackage, selected[k]) == GroupOf(ByPackage, r) && !Above(r, selected[k])
  }

  lemma OfferedGetsToken(rows: seq<Release>, licensed: set<string>, viewer: Viewer, types: set<string>, r: Release)
    requires UniqueIds(rows) && r in rows && Offered(r, licensed, viewer.platform, types) && VisibleTo(r, viewer)
    ensures DownloadToken(rows, r.id, licensed, viewer) == TokenFor(r)
  {
    UniqueRow(rows, r);
  }

  lemma SelectedIsOffered(rows: seq<Release>, licensed: set<string>, viewer: Viewer, types: set<string>, selected: seq<Release>, r: Release)
    requires r in selected
    requires IsSelection(Candidates(rows, licensed, viewer.platform, types), RulesFor(viewer, ByPackage), selected)
    ensures r in rows && Offered(r, licensed, viewer.platform, types) && VisibleTo(r, viewer)
  {
    var candidates, rules := Candidates(rows, licensed, viewer.platform, types), RulesFor(viewer, ByPackage);
    var k :| 0 <= k < |selected| && selected[k] == r;
    var i: nat :| IsChoice(candidates, rules, rules.group(r), i) && candidates[i] == r;
    assert candidates[i] in candidates && Visible(rules, r);
  }

  lemma TokenedIsCovered(rows: seq<Release>, licensed: set<string>, viewer: Viewer, types: set<string>, selected: seq<Release>, id: string)
    requires IsSelection(Candidates(rows, licensed, viewer.platform, types), RulesFor(viewer, ByPackage), selected)
    requires Tokened(rows, id, licensed, viewer, types)
    ensures Covers(selected, DownloadToken(rows, id, licensed, viewer).release)
  {
    var candidates, rules := Candidates(rows, licensed, viewer.platform, types), RulesFor(viewer, ByPackage);
    KeysRank(viewer, ByPackage);
    var r := DownloadToken(rows, id, licensed, viewer).release;
    assert r in candidates;
    var n :| 0 <= n < |candidates| && candidates[n] == r;
    assert Visible(rules, candidates[n]);
    var k :| 0 <= k < |selected| && rules.group(selected[k]) == rules.group(candidates[n]);
    var i: nat :| IsChoice(candidates, rules, rules.group(selected[k]), i) && candidates[i] == selected[k];
    assert Competes(rules, candidates[n], rules.group(selected[k]));
    assert !rules.above(r, selected[k]);
  }

  /** Each release the manifest offers gets a token, and each tokened package release is outranked only within its
      own package group, by an offered release. */
  lemma TokensMatchManifest(rows: seq<Release>, licensed: set<string>, viewer: Viewer, types: set<string>, selected: seq<Release>)
    requires UniqueIds(rows)
    requires IsSelection(Candidates(rows, licensed, viewer.platform, types), RulesFor(viewer, ByPackage), selected)
    ensures forall r :: r in selected ==> DownloadToken(rows, r.id, licensed, viewer) == TokenFor(r)
    ensures forall id :: Tokened(rows, id, licensed, viewer, types) ==> Covers(selected, DownloadToken(rows, id, licensed, viewer).release)
  {
    forall r | r in selected
      ensures DownloadToken(rows, r.id, licensed, viewer) == TokenFor(r)
    {
      SelectedIsOffered(rows, licensed, viewer, types, selected, r);
      OfferedGetsToken(rows, licensed, viewer, types, r);
    }
    forall id | Tokened(rows, id, licensed, viewer, types) {
      TokenedIsCovered(rows, licensed, viewer, types, selected, id);
    }
  }

  predicate Tokened(rows: seq<Release>, id: string, licensed: set<string>, viewer: Viewer, types: set<string>) {
    var answer := DownloadToken(rows, id, licensed, viewer);
    answer.TokenFor? && IsPackage(answer.release) && TypeOf(answer.release) in types
  }

  lemma UniqueRow(rows: seq<Release>, r: Release)
    requires UniqueIds(rows) && r in rows
    ensures Find(rows, r.id) == Some(r)
  {
    var found := Find(rows, r.id).value;
    var i :| 0 <= i < |rows| && rows[i] == r;
    var j :| 0 <= j < |rows| && rows[j] == found;
  }

  // ----- The desktop update -----

  predicate IsDesktopCandidate(r: Release, platform: string) {
    Published(r) && r.platform == platform && (TypeOf(r) == DESKTOP || r.scope == "app") && r.productKey.GetOr(DESKTOP_KEY) == DESKTOP_KEY
  }

  /** Row `g` is visible, in the group of row `f`, and outranked by no visible row. */
  predicate IsHighestInGroupOf(rows: seq<Release>, viewer: Viewer, f: nat, g: nat) {
    && f < |rows| && g < |rows| && VisibleTo(rows[g], viewer)
    && GroupOf(ByProductKey, rows[g]) == GroupOf(ByProductKey, rows[f])
    && forall r :: r in rows && VisibleTo(r, viewer) ==> !Above(r, rows[g])
  }

  /** The first selected row is the choice of the group of the first visible row. */
  lemma FirstSelected(rows: seq<Release>, rules: Rules<Release, Denial>, selected: seq<Release>, f: nat) returns (i: nat)
    requires IsSelection(rows, rules, selected) && IsFirstVisible(rows, rules, f)
    ensures selected != [] && rules.group(selected[0]) == rules.group(rows[f])
    ensures IsChoice(rows, rules, rules.group(rows[f]), i) && rows[i] == selected[0]
  {
    assert HasGroup(selected, rules, rules.group(rows[f]));
    var n: nat :| IsFirstVisible(rows, rules, n) && rules.group(rows[n]) == rules.group(selected[0]);
    assert n == f;
    i :| IsChoice(rows, rules, rules.group(selected[0]), i) && rows[i] == selected[0];
  }

  /** The desktop update offered is outranked by no visible row exactly when a highest visible row shares the product key
      of the first visible row listed. */
  lemma DesktopUpdateIsHighest(rows: seq<Release>, viewer: Viewer, selected: seq<Release>, f: nat)
    requires forall i :: 0 <= i < |rows| ==> IsDesktopCandidate(rows[i], viewer.platform)
    requires IsSelection(rows, RulesFor(viewer, ByProductKey), selected)
    requires IsFirstVisible(rows, RulesFor(viewer, ByProductKey), f)
    ensures selected != [] && selected[0] in rows && VisibleTo(selected[0], viewer)
    ensures (forall r :: r in rows && VisibleTo(r, viewer) ==> !Above(r, selected[0]))
        <==> (exists g: nat :: IsHighestInGroupOf(rows, viewer, f, g))
  {
    var rules := RulesFor(viewer, ByProductKey);
    var i := FirstSelected(rows, rules, selected, f);
    if forall r :: r in rows && VisibleTo(r, viewer) ==> !Above(r, selected[0]) {
      assert IsHighestInGroupOf(rows, viewer, f, i);
    }
    if g: nat :| IsHighestInGroupOf(rows, viewer, f, g) {
      assert Competes(rules, rows[g], rules.group(rows[f])) && !rules.above(rows[g], rows[i]);
      forall r | r in rows && VisibleTo(r, viewer)
        ensures !Above(r, selected[0])
      {
        KeysAreOrdered(r, rows[g], selected[0]);
      }
    }
  }

  lemma FirstTwoGroupsDiffer(rows: seq<Release>, rules: Rules<Release, Denial>, selected: seq<Release>)
    requires IsSelection(rows, rules, selected)
    ensures |selected| > 1 ==> rules.group(selected[0]) != rules.group(selected[1])
  {
  }

  predicate VisibleRowsAreKeyed(rows: seq<Release>, viewer: Viewer) {
    forall r :: r in rows && VisibleTo(r, viewer) ==> r.productKey.Some?
  }

  /** When every visible desktop row names its product key, the one selected row is the highest visible one. */
  lemma KeyedDesktopRowsGiveTheNewest(rows: seq<Release>, viewer: Viewer, selected: seq<Release>, r: Release)
    requires forall i :: 0 <= i < |rows| ==> IsDesktopCandidate(rows[i], viewer.platform)
    requires VisibleRowsAreKeyed(rows, viewer)
    requires IsSelection(rows, RulesFor(viewer, ByProductKey), selected)
    requires r in rows && VisibleTo(r, viewer)
    ensures |selected| == 1 && !Above(r, selected[0])
  {
    var rules := RulesFor(viewer, ByProductKey);
    var n :| 0 <= n < |rows| && rows[n] == r;
    assert rules.group(r) == DESKTOP_KEY && HasGroup(selected, rules, rules.group(rows[n]));
    forall m | 0 <= m < |selected|
      ensures rules.group(selected[m]) == DESKTOP_KEY
    {
      var i: nat :| IsChoice(rows, rules, rules.group(selected[m]), i) && rows[i] == selected[m];
      assert rows[i] in rows;
    }
    FirstTwoGroupsDiffer(rows, rules, selected);
    var i: nat :| IsChoice(rows, rules, rules.group(selected[0]), i) && rows[i] == selected[0];
    assert Competes(rules, rows[n], rules.group(selected[0]));
    KeysAreOrdered(selected[0], r, r);
  }

  function Desktop(id: string, key: Option<string>, isRequired: bool, updatedAt: int): Release {
    Release(id, None, None, "app", Some(DESKTOP), key, "stable", "macos-arm64", "1.0", isRequired, true, Some(true), 0, updatedAt,
            All, {}, {}, {}, {}, None)
  }

  /** Two desktop candidates, newest update first: a legacy row without a product key is a group of its own, and being
      updated later it hides a required release. */
  lemma LegacyDesktopRowHidesRequired(bucket: (string, string) -> int, selected: seq<Release>)
    requires IsSelection([Desktop("legacy", None, false, 2), Desktop("required", Some(DESKTOP_KEY), true, 1)],
      RulesFor(Viewer(Person("c", None, None, {}), "stable", "macos-arm64", bucket), ByProductKey), selected)
    ensures IsDesktopCandidate(Desktop("legacy", None, false, 2), "macos-arm64")
    ensures IsDesktopCandidate(Desktop("required", Some(DESKTOP_KEY), true, 1), "macos-arm64")
    ensures selected != [] && selected[0] == Desktop("legacy", None, false, 2)
    ensures VisibleTo(Desktop("required", Some(DESKTOP_KEY), true, 1), Viewer(Person("c", None, None, {}), "stable", "macos-arm64", bucket))
    ensures Above(Desktop("required", Some(DESKTOP_KEY), true, 1), selected[0])
  {
    var legacy, required := Desktop("legacy", None, false, 2), Desktop("required", Some(DESKTOP_KEY), true, 1);
    var rules := RulesFor(Viewer(Person("c", None, None, {}), "stable", "macos-arm64", bucket), ByProductKey);
    var i := FirstSelected([legacy, required], rules, selected, 0);
    assert |"legacy"| != |DESKTOP_KEY|;
  }
}
