/** Registering releases, and the audit that registered releases pass. */
module Registry {
  import opened Options
  import opened Releases
  import opened ReleaseOrder
  import CompactToken
  import Versions

  /** The catalog metadata of a product; an empty policy set allows everything. */
  datatype ProductMeta = ProductMeta(
    slug: string, feature: string, allowedChannels: set<string>, allowedModes: set<Mode>, minimumVersion: Option<string>)

  /** An artifact as the checks see it. */
  datatype File = File(size: nat, sha: string)

  /** The signed claims of a release. */
  datatype Envelope = Envelope(
    releaseType: string, packageId: string, feature: Option<string>, channel: string, platform: string, version: string,
    minimumVersion: Option<string>, filename: string, size: int, sha: string)

  /** A release row with its artifact columns. */
  datatype Entry = Entry(
    release: Release, minimumVersion: Option<string>, path: string, filename: string,
    size: Option<int>, sha: Option<string>, signature: Option<string>, keyId: Option<string>)

  datatype Config = Config(
    products: map<string, ProductMeta>, keys: map<string, int>, library: CompactToken.Library<Envelope>, requireSignatures: bool)

  /** A registration form, its texts stripped and lower-cased where the service does so; blank means absent. */
  datatype Upload = Upload(
    existingId: Option<string>, releaseType: string, productKey: Option<string>, productId: Option<string>,
    channel: string, platform: string, version: string, minimumVersion: Option<string>, isRequired: bool, isActive: bool,
    path: string, filename: Option<string>, size: Option<int>, sha: Option<string>, signature: Option<string>, keyId: Option<string>,
    mode: Mode, allowedIds: set<string>, allowedEmails: set<string>, allowedHashes: set<string>, requiredTags: set<string>,
    rolloutPercent: int)

  datatype UploadError =
    | VersionRequired | PathRequired | ProductRequired | SizeMismatch | ShaMismatch | NegativeSize | KeyIdRequired
    | ProductNotFound | ChannelNotAllowed | ModeNotAllowed | BelowCatalogVersion
    | UnsizedSignature | InvalidSignature | WrongKeyId | SignatureRequired | ReleaseNotFound

  datatype Outcome = Registered(entry: Entry) | Refused(error: UploadError)

  // ----- Envelopes -----

  predicate IsSha(text: string) {
    |text| == 64 && forall i :: 0 <= i < 64 ==> '0' <= text[i] <= '9' || 'a' <= text[i] <= 'f'
  }

  function MakeEnvelope(releaseType: string, packageId: string, feature: Option<string>, channel: string, platform: string,
                        version: string, minimumVersion: Option<string>, filename: string, size: int, sha: string): Option<Envelope> {
    if releaseType !in {STRATEGY, EXTENSION, DESKTOP} then None
    else if packageId == "" || channel == "" || platform == "" || version == "" || filename == "" then None
    else if feature == Some("") || minimumVersion == Some("") || !IsSha(sha) || size < 0 then None
    else Some(Envelope(releaseType, packageId, feature, channel, platform, version, minimumVersion, filename, size, sha))
  }

  /** The signing key of a token that carries exactly these claims. */
  function VerifiedKeyId(config: Config, token: string, expected: Envelope): Option<string> {
    var verified := CompactToken.Verify(config.library, token, config.keys,
      CompactToken.Expected("autoedge-release+jws", "autoedge.release", None, None));
    if verified.Good? && verified.payload.claims == expected then verified.header.kid else None
  }

  // ----- Registration -----

  function BaseName(path: string): string {
    if path == "" then ""
    else if path[|path| - 1] == '/' then ""
    else BaseName(path[..|path| - 1]) + [path[|path| - 1]]
  }

  function ProductOf(config: Config, u: Upload): Option<ProductMeta> {
    if u.releaseType == DESKTOP || u.productId.None? || u.productId.value !in config.products then None
    else Some(config.products[u.productId.value])
  }

  function KeyOf(config: Config, u: Upload): Option<string> {
    if u.releaseType == DESKTOP then u.productKey.Or(Some(DESKTOP_KEY))
    else
      var product := ProductOf(config, u);
      u.productKey.Or(if product.Some? then Some(product.value.slug) else None)
  }

  /** The catalog floor applies to strategy packages. */
  function FloorOf(product: Option<ProductMeta>, releaseType: string): Option<string> {
    if product.Some? && releaseType == STRATEGY && Versions.IsVersion(product.value.minimumVersion) then product.value.minimumVersion else None
  }

  function MinimumOf(config: Config, u: Upload): Option<string> {
    u.minimumVersion.Or(FloorOf(ProductOf(config, u), u.releaseType))
  }

  function FileError(u: Upload, file: Option<File>): Option<UploadError> {
    if file.Some? && u.size.Some? && u.size.value != file.value.size then Some(SizeMismatch)
    else if file.Some? && u.sha.Some? && u.sha.value != file.value.sha then Some(ShaMismatch)
    else if file.None? && u.size.Some? && u.size.value < 0 then Some(NegativeSize)
    else None
  }

  function PolicyError(config: Config, u: Upload): Option<UploadError> {
    if u.releaseType == DESKTOP then None
    else
      var product := ProductOf(config, u);
      var floor := FloorOf(product, u.releaseType);
      if product.None? then Some(ProductNotFound)
      else if product.value.allowedChannels != {} && u.channel !in product.value.allowedChannels then Some(ChannelNotAllowed)
      else if product.value.allowedModes != {} && u.mode !in product.value.allowedModes then Some(ModeNotAllowed)
      else if floor.Some? && u.minimumVersion.Some? && (u.existingId.None? || u.isActive)
           && Versions.Compare(u.minimumVersion, floor) < 0 then Some(BelowCatalogVersion)
      else None
  }

  function FeatureOf(config: Config, u: Upload): Option<string> {
    var product := ProductOf(config, u);
    if product.Some? then Some(product.value.feature) else None
  }

  function SizeOf(u: Upload, file: Option<File>): Option<int> {
    if file.Some? then Some(file.value.size) else u.size
  }

  function ShaOf(u: Upload, file: Option<File>): Option<string> {
    if file.Some? then Some(file.value.sha) else u.sha
  }

  function FilenameOf(u: Upload): string {
    u.filename.GetOr(BaseName(u.path))
  }

  function SignatureError(config: Config, u: Upload, file: Option<File>): Option<UploadError> {
    var size, sha := SizeOf(u, file), ShaOf(u, file);
    if u.signature.None? then (if u.isActive && config.requireSignatures then Some(SignatureRequired) else None)
    else if size.None? || sha.None? then Some(UnsizedSignature)
    else
      var envelope := MakeEnvelope(u.releaseType, KeyOf(config, u).GetOr(DESKTOP_KEY), FeatureOf(config, u), u.channel, u.platform,
                                   u.version, MinimumOf(config, u), FilenameOf(u), size.value, sha.value);
      if envelope.None? then Some(InvalidSignature)
      else
        var keyId := VerifiedKeyId(config, u.signature.value, envelope.value);
        if keyId.None? then Some(InvalidSignature)
        else if keyId != u.keyId then Some(WrongKeyId)
        else None
  }

  function FormError(u: Upload): Option<UploadError> {
    if u.version == "" then Some(VersionRequired)
    else if u.path == "" then Some(PathRequired)
    else if u.releaseType != DESKTOP && u.productId.None? then Some(ProductRequired)
    else None
  }

  function EntryOf(config: Config, u: Upload, file: Option<File>, id: string, createdAt: int, now: int): Entry {
    var release := Release(id, if u.releaseType == DESKTOP then None else u.productId,
      if ProductOf(config, u).Some? then Some(ProductOf(config, u).value.slug) else None,
      if u.releaseType == DESKTOP then "app" else "strategy", Some(u.releaseType), KeyOf(config, u), u.channel, u.platform, u.version,
      u.isRequired, u.isActive, Some(u.isActive), createdAt, now,
      u.mode, u.allowedIds, u.allowedEmails, u.allowedHashes, u.requiredTags, Some(u.rolloutPercent));
    Entry(release, MinimumOf(config, u), u.path, FilenameOf(u), SizeOf(u, file), ShaOf(u, file), u.signature, u.keyId)
  }

  function FindEntry(rows: seq<Entry>, id: string): (found: Option<nat>)
    ensures found.Some? ==> found.value < |rows| && rows[found.value].release.id == id
    ensures found.None? ==> forall i :: 0 <= i < |rows| ==> rows[i].release.id != id
  {
    if rows == [] then None
    else if rows[|rows| - 1].release.id == id then Some(|rows| - 1)
    else FindEntry(rows[..|rows| - 1], id)
  }

  function RegisterError(config: Config, rows: seq<Entry>, u: Upload, file: Option<File>): Option<UploadError> {
    FormError(u).Or(FileError(u, file)).Or(if u.signature.Some? != u.keyId.Some? then Some(KeyIdRequired) else None)
      .Or(PolicyError(config, u)).Or(SignatureError(config, u, file))
      .Or(if u.existingId.Some? && FindEntry(rows, u.existingId.value).None? then Some(ReleaseNotFound) else None)
  }

  /** The rows after a registration or an edit; refused ones change nothing. */
  function Register(config: Config, rows: seq<Entry>, u: Upload, file: Option<File>, newId: string, now: int): seq<Entry> {
    if RegisterError(config, rows, u, file).Some? then rows
    else if u.existingId.Some? then
      var i := FindEntry(rows, u.existingId.value).value;
      rows[i := EntryOf(config, u, file, rows[i].release.id, rows[i].release.createdAt, now)]
    else rows + [EntryOf(config, u, file, newId, now, now)]
  }

  // ----- The audit -----

  datatype Problem = ArtifactMissing | SizeDiffers | ShaDiffers | KeyIdDiffers | BadSignature | SignatureAbsent

  function StoredEnvelope(config: Config, e: Entry): Option<Envelope> {
    var r := e.release;
    var feature := if r.productId.Some? && r.productId.value in config.products then Some(config.products[r.productId.value].feature) else None;
    if e.size.None? || e.sha.None? then None
    else MakeEnvelope(TypeOf(r), r.productKey.Or(r.productSlug).GetOr(DESKTOP_KEY), feature, r.channel, r.platform, r.version,
                      e.minimumVersion, e.filename, e.size.value, e.sha.value)
  }

  function SignatureProblems(config: Config, e: Entry): seq<Problem> {
    if e.signature.None? then (if config.requireSignatures then [SignatureAbsent] else [])
    else
      var envelope := StoredEnvelope(config, e);
      if envelope.None? then [BadSignature]
      else
        var keyId := VerifiedKeyId(config, e.signature.value, envelope.value);
        if keyId.None? then [BadSignature] else if keyId != e.keyId then [KeyIdDiffers] else []
  }

  function Problems(config: Config, e: Entry, files: map<string, File>): seq<Problem> {
    if e.path !in files then [ArtifactMissing]
    else
      (if e.size != Some(files[e.path].size) then [SizeDiffers] else [])
      + (if e.sha != Some(files[e.path].sha) then [ShaDiffers] else [])
      + SignatureProblems(config, e)
  }

  function Failures(config: Config, rows: seq<Entry>, files: map<string, File>): nat {
    if rows == [] then 0
    else
      var last := rows[|rows| - 1];
      Failures(config, rows[..|rows| - 1], files)
      + (if Published(last.release) && Problems(config, last, files) != [] then 1 else 0)
  }

  method Audit(config: Config, rows: seq<Entry>, files: map<string, File>) returns (failures: nat)
    ensures failures == Failures(config, rows, files)
  {
    failures := 0;
    for i := 0 to |rows|
      invariant failures == Failures(config, rows[..i], files)
    {
      var e := rows[i];
      assert rows[..i + 1][..i] == rows[..i];
      if Published(e.release) {
        var problems: seq<Problem> := [];
        if e.path !in files {
          problems := problems + [ArtifactMissing];
        } else {
          if e.size != Some(files[e.path].size) {
            problems := problems + [SizeDiffers];
          }
          if e.sha != Some(files[e.path].sha) {
            problems := problems + [ShaDiffers];
          }
          problems := problems + SignatureProblems(config, e);
        }
        if problems != [] {
          failures := failures + 1;
        }
      }
    }
    assert rows[..|rows|] == rows;
  }

  // ----- Registered releases pass -----

  /** An active row meets its product's policy and floor, and its signature covers the row as stored. */
  predicate IsSound(config: Config, e: Entry) {
    var r := e.release;
    r.isActive ==>
      && (r.productId.Some? ==> r.productId.value in config.products && MeetsPolicy(config.products[r.productId.value], e))
      && SignatureProblems(config, e) == []
  }

  predicate MeetsPolicy(product: ProductMeta, e: Entry) {
    && (product.allowedChannels == {} || e.release.channel in product.allowedChannels)
    && (product.allowedModes == {} || e.release.mode in product.allowedModes)
    && (FloorOf(Some(product), TypeOf(e.release)).Some? ==> Versions.Compare(e.minimumVersion, product.minimumVersion) >= 0)
  }

  predicate AllSound(config: Config, rows: seq<Entry>) {
    forall i :: 0 <= i < |rows| ==> IsSound(config, rows[i])
  }

  lemma EntryMeetsPolicy(config: Config, u: Upload, file: Option<File>, id: string, createdAt: int, now: int)
    requires PolicyError(config, u).None? && u.isActive && u.releaseType != DESKTOP && u.productId.Some?
    ensures u.productId.value in config.products
    ensures MeetsPolicy(config.products[u.productId.value], EntryOf(config, u, file, id, createdAt, now))
  {
    Versions.CompareIsTotalPreorder(config.products[u.productId.value].minimumVersion, None, None);
  }

  lemma EntrySignatureHolds(config: Config, u: Upload, file: Option<File>, id: string, createdAt: int, now: int)
    requires FormError(u).None? && PolicyError(config, u).None? && SignatureError(config, u, file).None? && u.isActive
    requires HasKnownType(u)
    ensures SignatureProblems(config, EntryOf(config, u, file, id, createdAt, now)) == []
  {
    var e := EntryOf(config, u, file, id, createdAt, now);
    assert e.release.productKey.Some?;
  }

  /** An unknown type in a form is replaced before it gets here. */
  predicate HasKnownType(u: Upload) {
    u.releaseType in {STRATEGY, EXTENSION, DESKTOP}
  }

  lemma RegisterKeepsSound(config: Config, rows: seq<Entry>, u: Upload, file: Option<File>, newId: string, now: int)
    requires AllSound(config, rows) && HasKnownType(u)
    ensures AllSound(config, Register(config, rows, u, file, newId, now))
  {
    if RegisterError(config, rows, u, file).None? {
      var (id, createdAt) := if u.existingId.Some?
        then var i := FindEntry(rows, u.existingId.value).value; (rows[i].release.id, rows[i].release.createdAt)
        else (newId, now);
      if u.isActive {
        EntrySignatureHolds(config, u, file, id, createdAt, now);
        if u.releaseType != DESKTOP {
          EntryMeetsPolicy(config, u, file, id, createdAt, now);
        }
      }
      assert IsSound(config, EntryOf(config, u, file, id, createdAt, now));
    }
  }

  /** A sound active row passes the audit exactly when its file is there with the recorded size and digest. */
  lemma AuditPassesExactlyOnRecordedFile(config: Config, e: Entry, files: map<string, File>)
    requires IsSound(config, e) && Published(e.release)
    ensures Problems(config, e, files) == [] <==>
      e.path in files && e.size == Some(files[e.path].size) && e.sha == Some(files[e.path].sha)
  {
  }

  // ----- By the columns of the form and the row -----

  /** The token is genuine, carries exactly these claims, and is signed by this key. */
  ghost predicate SignsClaims(config: Config, token: string, keyId: string, claims: Envelope) {
    exists h, p :: CompactToken.Genuine(config.library, token, config.keys,
                                        CompactToken.Expected("autoedge-release+jws", "autoedge.release", None, None), h, p)
                   && h.kid == Some(keyId) && p.claims == claims
  }

  lemma VerifiedExactlyWhenSigned(config: Config, token: string, keyId: string, claims: Envelope)
    ensures VerifiedKeyId(config, token, claims) == Some(keyId) <==> SignsClaims(config, token, keyId, claims)
  {
    var expected := CompactToken.Expected("autoedge-release+jws", "autoedge.release", None, None);
    var verified := CompactToken.Verify(config.library, token, config.keys, expected);
    if verified.Good? {
      CompactToken.AcceptedExactlyWhenGenuine(config.library, token, config.keys, expected, verified.header, verified.payload);
    }
    if h, p :| CompactToken.Genuine(config.library, token, config.keys, expected, h, p) && h.kid == Some(keyId) && p.claims == claims {
      CompactToken.AcceptedExactlyWhenGenuine(config.library, token, config.keys, expected, h, p);
    }
  }

  /** Claims that can be signed: no empty text, a size, and a digest of 64 lower-case hexadecimal digits. */
  predicate Signable(c: Envelope) {
    && c.packageId != "" && c.channel != "" && c.platform != "" && c.version != "" && c.filename != ""
    && c.feature != Some("") && c.minimumVersion != Some("") && c.size >= 0
    && |c.sha| == 64 && (forall i :: 0 <= i < 64 ==> '0' <= c.sha[i] <= '9' || 'a' <= c.sha[i] <= 'f')
  }

  /** The product of a package form, if the catalog has it. */
  function FormProduct(config: Config, u: Upload): Option<ProductMeta> {
    if u.releaseType != "trader_desktop" && u.productId.Some? && u.productId.value in config.products
    then Some(config.products[u.productId.value]) else None
  }

  predicate HasFloor(u: Upload, product: ProductMeta) {
    u.releaseType == "strategy_package" && product.minimumVersion.Some? && product.minimumVersion.value != ""
  }

  predicate IsFolder(prefix: string) {
    prefix == "" || prefix[|prefix| - 1] == '/'
  }

  /** The file name is what follows the last slash of the path. */
  ghost predicate EndsInFile(path: string, filename: string) {
    '/' !in filename && exists prefix :: IsFolder(prefix) && path == prefix + filename
  }

  lemma {:induction false} BaseNameEndsPath(path: string) returns (prefix: string)
    ensures IsFolder(prefix) && path == prefix + BaseName(path) && '/' !in BaseName(path)
  {
    if path == "" || path[|path| - 1] == '/' {
      prefix := path;
    } else {
      var head, last := path[..|path| - 1], path[|path| - 1];
      prefix := BaseNameEndsPath(head);
      assert path == head + [last];
    }
  }

  /** The row's release columns are the form's, with the defaults for what is blank. */
  predicate StoresRelease(config: Config, u: Upload, r: Release, now: int) {
    var product := FormProduct(config, u);
    && r.releaseType == Some(u.releaseType) && r.channel == u.channel && r.platform == u.platform && r.version == u.version
    && r.isRequired == u.isRequired && r.isActive == u.isActive && r.isPublished == Some(u.isActive) && r.updatedAt == now
    && r.mode == u.mode && r.allowedIds == u.allowedIds && r.allowedEmails == u.allowedEmails && r.allowedHashes == u.allowedHashes
    && r.requiredTags == u.requiredTags && r.rolloutPercent == Some(u.rolloutPercent)
    && r.productSlug == (if product.Some? then Some(product.value.slug) else None)
    && (if u.releaseType == "trader_desktop" then r.scope == "app" && r.productId.None? else r.scope == "strategy" && r.productId == u.productId)
    && r.productKey == (if u.productKey.Some? then u.productKey else if u.releaseType == "trader_desktop" then Some("trader-desktop")
                        else if product.Some? then Some(product.value.slug) else None)
  }

  /** The row's artifact columns are the form's, with the file's size and digest if there is a file. */
  predicate StoresArtifact(config: Config, u: Upload, file: Option<File>, e: Entry) {
    var product := FormProduct(config, u);
    && e.minimumVersion == (if u.minimumVersion.Some? then u.minimumVersion
                            else if product.Some? && HasFloor(u, product.value) then product.value.minimumVersion else None)
    && e.path == u.path && e.size == (if file.Some? then Some(file.value.size) else u.size) && e.sha == (if file.Some? then Some(file.value.sha) else u.sha)
    && e.signature == u.signature && e.keyId == u.keyId
  }

  ghost predicate StoresName(u: Upload, filename: string) {
    if u.filename.Some? then filename == u.filename.value else EndsInFile(u.path, filename)
  }

  ghost predicate StoresForm(config: Config, u: Upload, file: Option<File>, e: Entry, now: int) {
    StoresRelease(config, u, e.release, now) && StoresArtifact(config, u, file, e) && StoresName(u, e.filename)
  }

  lemma FilenameIsStored(u: Upload)
    ensures StoresName(u, FilenameOf(u))
  {
    var prefix := BaseNameEndsPath(u.path);
  }

  lemma ProductOfForm(config: Config, u: Upload)
    ensures ProductOf(config, u) == FormProduct(config, u)
  {
  }

  lemma EntryStoresRelease(config: Config, u: Upload, file: Option<File>, id: string, createdAt: int, now: int)
    ensures StoresRelease(config, u, EntryOf(config, u, file, id, createdAt, now).release, now)
  {
    ProductOfForm(config, u);
  }

  lemma EntryStoresArtifact(config: Config, u: Upload, file: Option<File>, id: string, createdAt: int, now: int)
    ensures StoresArtifact(config, u, file, EntryOf(config, u, file, id, createdAt, now))
  {
    ProductOfForm(config, u);
  }

  lemma EntryStoresForm(config: Config, u: Upload, file: Option<File>, id: string, createdAt: int, now: int)
    ensures StoresForm(config, u, file, EntryOf(config, u, file, id, createdAt, now), now)
    ensures EntryOf(config, u, file, id, createdAt, now).release.id == id
    ensures EntryOf(config, u, file, id, createdAt, now).release.createdAt == createdAt
  {
    EntryStoresRelease(config, u, file, id, createdAt, now);
    EntryStoresArtifact(config, u, file, id, createdAt, now);
    FilenameIsStored(u);
    assert EntryOf(config, u, file, id, createdAt, now).filename == FilenameOf(u);
  }

  /** The saved row stores the form. */
  lemma SavedRowStoresForm(config: Config, rows: seq<Entry>, u: Upload, file: Option<File>, newId: string, now: int)
    requires RegisterError(config, rows, u, file).None?
    ensures var after := Register(config, rows, u, file, newId, now);
      if u.existingId.None? then
        |after| == |rows| + 1 && rows <= after && StoresForm(config, u, file, after[|rows|], now)
        && after[|rows|].release.id == newId && after[|rows|].release.createdAt == now
      else
        |after| == |rows| && exists i :: 0 <= i < |rows| && rows[i].release.id == u.existingId.value && StoresForm(config, u, file, after[i], now)
  {
    if u.existingId.Some? {
      var i := FindEntry(rows, u.existingId.value).value;
      EntryStoresForm(config, u, file, rows[i].release.id, rows[i].release.createdAt, now);
      assert StoresForm(config, u, file, Register(config, rows, u, file, newId, now)[i], now);
    } else {
      EntryStoresForm(config, u, file, newId, now, now);
    }
  }

  /** The claims a signature of this row must carry. */
  function ClaimsOf(config: Config, e: Entry): Envelope
    requires e.size.Some? && e.sha.Some?
  {
    var r := e.release;
    var packageId := if r.productKey.Some? then r.productKey.value
                     else if r.productSlug.Some? then r.productSlug.value else "trader-desktop";
    var feature := if r.productId.Some? && r.productId.value in config.products then Some(config.products[r.productId.value].feature) else None;
    Envelope(Kind(r), packageId, feature, r.channel, r.platform, r.version, e.minimumVersion, e.filename, e.size.value, e.sha.value)
  }

  /** Without a signature nothing may be required; with one, it signs the row's claims by the named key. */
  ghost predicate SignatureHolds(config: Config, e: Entry) {
    if e.signature.None? then !config.requireSignatures
    else
      e.keyId.Some? && e.size.Some? && e.sha.Some? && Kind(e.release) in {"strategy_package", "extension_package", "trader_desktop"}
      && Signable(ClaimsOf(config, e)) && SignsClaims(config, e.signature.value, e.keyId.value, ClaimsOf(config, e))
  }

  lemma ClaimsMakeEnvelope(config: Config, e: Entry)
    requires e.size.Some? && e.sha.Some?
    ensures StoredEnvelope(config, e) ==
      if Kind(e.release) in {"strategy_package", "extension_package", "trader_desktop"} && Signable(ClaimsOf(config, e))
      then Some(ClaimsOf(config, e)) else None
  {
  }

  lemma SignatureByColumns(config: Config, e: Entry)
    ensures SignatureProblems(config, e) == [] <==> SignatureHolds(config, e)
  {
    if e.signature.Some? && e.size.Some? && e.sha.Some? {
      ClaimsMakeEnvelope(config, e);
      var claims := ClaimsOf(config, e);
      var keyId := VerifiedKeyId(config, e.signature.value, claims);
      if keyId.Some? {
        VerifiedExactlyWhenSigned(config, e.signature.value, keyId.value, claims);
      }
      if e.keyId.Some? {
        VerifiedExactlyWhenSigned(config, e.signature.value, e.keyId.value, claims);
      }
    }
  }

  /** A published row passes the audit exactly when its file is there with the recorded size and digest and its signature
      holds. */
  lemma AuditByColumns(config: Config, e: Entry, files: map<string, File>)
    ensures Problems(config, e, files) == [] <==>
      (e.path in files && e.size == Some(files[e.path].size) && e.sha == Some(files[e.path].sha) && SignatureHolds(config, e))
  {
    SignatureByColumns(config, e);
  }

  predicate FormIsComplete(u: Upload) {
    && u.version != "" && u.path != "" && (u.releaseType == "trader_desktop" || u.productId.Some?)
    && (u.signature.Some? <==> u.keyId.Some?)
  }

  /** A size or digest on the form is that of the file; without a file a size is not negative. */
  predicate AgreesWithFile(u: Upload, file: Option<File>) {
    if file.Some? then
      (u.size.None? || u.size.value == file.value.size) && (u.sha.None? || u.sha.value == file.value.sha)
    else u.size.None? || u.size.value >= 0
  }

  predicate WithinPolicy(config: Config, u: Upload) {
    u.releaseType == "trader_desktop" ||
    (FormProduct(config, u).Some?
     && var product := FormProduct(config, u).value;
       && (product.allowedChannels == {} || u.channel in product.allowedChannels)
       && (product.allowedModes == {} || u.mode in product.allowedModes)
       && (HasFloor(u, product) && u.minimumVersion.Some? && (u.existingId.None? || u.isActive) ==>
             Versions.Compare(u.minimumVersion, product.minimumVersion) >= 0))
  }

  /** What the form would store passes as signed, or as unsigned while it is inactive. */
  ghost predicate SignatureFits(config: Config, u: Upload, file: Option<File>) {
    SignatureHolds(config, EntryOf(config, u, file, "", 0, 0)) || (u.signature.None? && !u.isActive)
  }

  /** A form is registered exactly when it is complete, agrees with the file, keeps the product's policy, is signed as it must
      be, and edits only a row that exists. */
  lemma RegisteredExactly(config: Config, rows: seq<Entry>, u: Upload, file: Option<File>)
    requires HasKnownType(u)
    ensures RegisterError(config, rows, u, file).None? <==>
      (FormIsComplete(u) && AgreesWithFile(u, file) && WithinPolicy(config, u) && SignatureFits(config, u, file)
       && EditsExisting(rows, u))
  {
    EachCheckPasses(config, rows, u, file);
    FormByColumns(u, file);
    if FormIsComplete(u) {
      PolicyByColumns(config, u);
      if WithinPolicy(config, u) {
        FitsExactly(config, u, file);
      }
    }
  }

  ghost predicate EditsExisting(rows: seq<Entry>, u: Upload) {
    u.existingId.None? || exists i :: 0 <= i < |rows| && rows[i].release.id == u.existingId.value
  }

  lemma EachCheckPasses(config: Config, rows: seq<Entry>, u: Upload, file: Option<File>)
    ensures RegisterError(config, rows, u, file).None? <==>
      (FormError(u).None? && FileError(u, file).None? && (u.signature.Some? <==> u.keyId.Some?)
       && PolicyError(config, u).None? && SignatureError(config, u, file).None? && EditsExisting(rows, u))
  {
  }

  lemma FormByColumns(u: Upload, file: Option<File>)
    ensures FormIsComplete(u) && AgreesWithFile(u, file) <==>
      (FormError(u).None? && FileError(u, file).None? && (u.signature.Some? <==> u.keyId.Some?))
  {
  }

  lemma PolicyByColumns(config: Config, u: Upload)
    requires FormIsComplete(u)
    ensures PolicyError(config, u).None? <==> WithinPolicy(config, u)
  {
  }

  lemma FitsExactly(config: Config, u: Upload, file: Option<File>)
    requires HasKnownType(u) && FormIsComplete(u) && WithinPolicy(config, u)
    ensures SignatureError(config, u, file).None? <==> SignatureFits(config, u, file)
  {
    var e := EntryOf(config, u, file, "", 0, 0);
    SignatureByColumns(config, e);
    assert e.release.productKey.Some?;
  }
}
