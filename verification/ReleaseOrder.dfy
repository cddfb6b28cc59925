/** Which release a customer sees and is offered, said by the columns of the rows. */
module ReleaseOrder {
  import opened Options
  import opened Selection
  import opened Releases
  import Versions

  // ----- The order of two releases -----

  /** Internal is above canary, canary above beta, and beta above stable and every other name. */
  predicate ChannelAbove(x: string, y: string) {
    || (x == "internal" && y != "internal")
    || (x == "canary" && y != "canary" && y != "internal")
    || (x == "beta" && y != "beta" && y != "canary" && y != "internal")
  }

  predicate SameLevel(x: string, y: string) {
    !ChannelAbove(x, y) && !ChannelAbove(y, x)
  }

  /** After equal numbers, the first list has a greater one, or goes on where the second has ended. */
  predicate GoesBeyond(x: seq<nat>, y: seq<nat>, i: nat) {
    i < |x| && i <= |y| && x[..i] == y[..i] && (i == |y| || x[i] > y[i])
  }

  ghost predicate ListAbove(x: seq<nat>, y: seq<nat>) {
    exists i: nat :: GoesBeyond(x, y, i)
  }

  lemma {:induction false} ListsCompareAtFirstDifference(x: seq<nat>, y: seq<nat>)
    ensures CompareLists(x, y) > 0 <==> ListAbove(x, y)
    decreases |x|
  {
    if x == [] || y == [] {
      assert x != [] ==> GoesBeyond(x, y, 0);
    } else if x[0] != y[0] {
      assert x[0] > y[0] ==> GoesBeyond(x, y, 0);
      if i: nat :| GoesBeyond(x, y, i) {
        assert i > 0 ==> x[..i][0] == y[..i][0];
      }
    } else {
      ListsCompareAtFirstDifference(x[1..], y[1..]);
      if i: nat :| GoesBeyond(x[1..], y[1..], i) {
        assert x[..i + 1] == [x[0]] + x[1..][..i] && y[..i + 1] == [y[0]] + y[1..][..i];
        assert GoesBeyond(x, y, i + 1);
      }
      if i: nat :| GoesBeyond(x, y, i) {
        assert i > 0;
        assert x[1..][..i - 1] == x[..i][1..] && y[1..][..i - 1] == y[..i][1..];
        assert GoesBeyond(x[1..], y[1..], i - 1);
      }
    }
  }

  /** One release is above another by channel, then by being required, then by its update, then by its creation, then by the
      numbers of its version. */
  ghost predicate IsAbove(x: Release, y: Release) {
    if !SameLevel(x.channel, y.channel) then ChannelAbove(x.channel, y.channel)
    else if x.isRequired != y.isRequired then x.isRequired
    else if x.updatedAt != y.updatedAt then x.updatedAt > y.updatedAt
    else if x.createdAt != y.createdAt then x.createdAt > y.createdAt
    else ListAbove(Versions.Parts(Some(x.version)), Versions.Parts(Some(y.version)))
  }

  lemma AboveByColumns(x: Release, y: Release)
    ensures Above(x, y) <==> IsAbove(x, y)
  {
    ListsCompareAtFirstDifference(Versions.Parts(Some(x.version)), Versions.Parts(Some(y.version)));
  }

  // ----- Who sees a release -----

  predicate Tagged(r: Release, person: Person) {
    exists tag :: tag in r.requiredTags && tag in person.tags
  }

  predicate Listed(r: Release, person: Person) {
    || person.id in r.allowedIds
    || (person.email.Some? && person.email.value in r.allowedEmails)
    || (person.licenseHash.Some? && person.licenseHash.value in r.allowedHashes)
  }

  /** The rollout percentage, a missing one being all, admits this bucket. */
  predicate RolledOut(r: Release, bucket: int) {
    r.rolloutPercent.None? || r.rolloutPercent.value >= 100 || (r.rolloutPercent.value > 0 && bucket < r.rolloutPercent.value)
  }

  /** The audience admits the person: by the internal tag for an internal release, else as the mode says. */
  predicate Admits(r: Release, person: Person, bucket: int) {
    && r.mode != Disabled
    && ((r.channel == "internal" && "internal" in person.tags)
        || (r.mode == All && (r.requiredTags == {} || Tagged(r, person)))
        || (r.mode == Allowlist && (Listed(r, person) || Tagged(r, person)))
        || (r.mode == Roles && Tagged(r, person))
        || (r.mode == Percent && (r.requiredTags == {} || Tagged(r, person)) && RolledOut(r, bucket)))
  }

  /** The release is on no higher channel than requested, or the mode or a tag lifts that. */
  predicate OnChannel(r: Release, viewer: Viewer) {
    || !ChannelAbove(r.channel, viewer.channel)
    || r.mode == Allowlist || r.mode == Roles
    || (r.channel in {"beta", "canary", "internal"} && "internal" in viewer.person.tags)
    || (r.channel in {"beta", "canary"}
        && exists tag :: tag in {"tester", "desktop_beta", "duo_beta", "duorc_beta", "early_access"} && tag in viewer.person.tags)
  }

  lemma VisibleByColumns(r: Release, viewer: Viewer)
    ensures VisibleTo(r, viewer) <==> Admits(r, viewer.person, viewer.bucket(viewer.person.id, r.id)) && OnChannel(r, viewer)
  {
    assert Tagged(r, viewer.person) <==> r.requiredTags * viewer.person.tags != {} by {
      if tag :| tag in r.requiredTags && tag in viewer.person.tags {
        assert tag in r.requiredTags * viewer.person.tags;
      }
    }
    if tag :| tag in {"tester", "desktop_beta", "duo_beta", "duorc_beta", "early_access"} && tag in viewer.person.tags {
      assert tag in viewer.person.tags * EARLY_TAGS;
    }
  }

  // ----- What is offered -----

  /** A release's type, older rows going by their scope. */
  function Kind(r: Release): string {
    if r.releaseType.Some? then r.releaseType.value else if r.scope == "app" then "trader_desktop" else "strategy_package"
  }

  /** A package release this licence may download on the platform. */
  predicate MayDownload(r: Release, licensed: set<string>, platform: string) {
    && r.isActive && r.isPublished != Some(false) && r.platform == platform
    && (Kind(r) == "strategy_package" || Kind(r) == "extension_package")
    && r.productId.Some? && r.productId.value in licensed
  }

  function GroupKey(r: Release): string {
    if r.productKey.Some? then r.productKey.value
    else if r.productSlug.Some? then r.productSlug.value
    else if r.productId.Some? then r.productId.value
    else "None"
  }

  /** Package releases are one group when type and key agree. */
  lemma GroupsByTypeAndKey(x: Release, y: Release)
    requires Kind(x) in {"strategy_package", "extension_package"} && Kind(y) in {"strategy_package", "extension_package"}
    ensures GroupOf(ByPackage, x) == GroupOf(ByPackage, y) <==> Kind(x) == Kind(y) && GroupKey(x) == GroupKey(y)
  {
    var left, right := GroupOf(ByPackage, x), GroupOf(ByPackage, y);
    assert left == Kind(x) + ":" + GroupKey(x) && right == Kind(y) + ":" + GroupKey(y);
    if left == right {
      assert left[0] == Kind(x)[0] && right[0] == Kind(y)[0];
      assert Kind(x) == Kind(y);
      assert left[|Kind(x)| + 1..] == GroupKey(x) && right[|Kind(y)| + 1..] == GroupKey(y);
    }
  }

  /** The manifest offers, of the visible releases of a type and key, one that no other is above: by channel, then required,
      then updated later, then created later, then numbered higher. */
  lemma ManifestOffersTheNewest(rows: seq<Release>, licensed: set<string>, viewer: Viewer, types: set<string>, selected: seq<Release>,
                                s: Release, r: Release)
    requires IsSelection(Candidates(rows, licensed, viewer.platform, types), RulesFor(viewer, ByPackage), selected) && s in selected
    requires r in rows && MayDownload(r, licensed, viewer.platform) && Kind(r) in types
    requires Admits(r, viewer.person, viewer.bucket(viewer.person.id, r.id)) && OnChannel(r, viewer)
    requires Kind(r) == Kind(s) && GroupKey(r) == GroupKey(s)
    ensures s in rows && MayDownload(s, licensed, viewer.platform) && Kind(s) in types
    ensures Admits(s, viewer.person, viewer.bucket(viewer.person.id, s.id)) && OnChannel(s, viewer)
    ensures !ChannelAbove(r.channel, s.channel)
    ensures SameLevel(r.channel, s.channel) && r.isRequired ==> s.isRequired
    ensures SameLevel(r.channel, s.channel) && r.isRequired == s.isRequired ==>
      r.updatedAt <= s.updatedAt
      && (r.updatedAt == s.updatedAt ==> r.createdAt <= s.createdAt)
      && (r.updatedAt == s.updatedAt && r.createdAt == s.createdAt ==>
            !ListAbove(Versions.Parts(Some(r.version)), Versions.Parts(Some(s.version))))
  {
    OfferedByColumns(rows, licensed, viewer, types, selected, s);
    VisibleByColumns(r, viewer);
    GroupsByTypeAndKey(r, s);
    NothingOfferedIsAbove(rows, licensed, viewer, types, selected, s, r);
    AboveByColumns(r, s);
  }

  lemma OfferedByColumns(rows: seq<Release>, licensed: set<string>, viewer: Viewer, types: set<string>, selected: seq<Release>, s: Release)
    requires IsSelection(Candidates(rows, licensed, viewer.platform, types), RulesFor(viewer, ByPackage), selected) && s in selected
    ensures s in rows && MayDownload(s, licensed, viewer.platform) && Kind(s) in types
    ensures Admits(s, viewer.person, viewer.bucket(viewer.person.id, s.id)) && OnChannel(s, viewer)
  {
    SelectedIsOffered(rows, licensed, viewer, types, selected, s);
    VisibleByColumns(s, viewer);
  }

  lemma NothingOfferedIsAbove(rows: seq<Release>, licensed: set<string>, viewer: Viewer, types: set<string>, selected: seq<Release>,
                              s: Release, r: Release)
    requires IsSelection(Candidates(rows, licensed, viewer.platform, types), RulesFor(viewer, ByPackage), selected) && s in selected
    requires r in rows && MayDownload(r, licensed, viewer.platform) && Kind(r) in types && VisibleTo(r, viewer)
    requires GroupOf(ByPackage, r) == GroupOf(ByPackage, s)
    ensures !Above(r, s)
  {
    KeysRank(viewer, ByPackage);
    assert r in Candidates(rows, licensed, viewer.platform, types);
    ChosenIsHighest(Candidates(rows, licensed, viewer.platform, types), RulesFor(viewer, ByPackage), selected, s, r);
  }

  lemma ChosenIsHighest(rows: seq<Release>, rules: Rules<Release, Denial>, selected: seq<Release>, s: Release, r: Release)
    requires IsSelection(rows, rules, selected) && s in selected && IsRanking(rules)
    requires r in rows && Visible(rules, r) && rules.group(r) == rules.group(s)
    ensures !rules.above(r, s)
  {
    var k :| 0 <= k < |selected| && selected[k] == s;
    var i: nat :| IsChoice(rows, rules, rules.group(s), i) && rows[i] == s;
    var n :| 0 <= n < |rows| && rows[n] == r;
    assert Competes(rules, rows[n], rules.group(s));
  }

  /** A release gets its token exactly when the row is active and published on the platform, visible, and, for a package,
      of a licensed product. */
  lemma TokenByColumns(rows: seq<Release>, id: string, licensed: set<string>, viewer: Viewer, r: Release)
    requires UniqueIds(rows)
    ensures DownloadToken(rows, id, licensed, viewer) == TokenFor(r) <==>
      (r in rows && r.id == id && r.isActive && r.isPublished != Some(false) && r.platform == viewer.platform
       && (Kind(r) in {"strategy_package", "extension_package"} ==> r.productId.Some? && r.productId.value in licensed)
       && Admits(r, viewer.person, viewer.bucket(viewer.person.id, r.id)) && OnChannel(r, viewer))
  {
    VisibleByColumns(r, viewer);
    if r in rows && r.id == id {
      UniqueRow(rows, r);
    }
  }

  // ----- The desktop update -----

  /** A desktop release that names no other product key. */
  predicate IsDesktop(r: Release, platform: string) {
    && r.isActive && r.isPublished != Some(false) && r.platform == platform && (Kind(r) == "trader_desktop" || r.scope == "app")
    && (r.productKey.None? || r.productKey.value == "trader-desktop")
  }

  /** Desktop rows with the product key are one group; a row without one goes by its product id, else stands alone. */
  lemma DesktopByColumns(r: Release, platform: string)
    ensures IsDesktopCandidate(r, platform) <==> IsDesktop(r, platform)
    ensures IsDesktop(r, platform) ==>
      GroupOf(ByProductKey, r) == (
        if r.productKey.Some? then "trader-desktop" else if r.productId.Some? then r.productId.value else r.id)
  {
  }
}
