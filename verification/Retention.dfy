/** Retention: only the newest artifacts of a release stream stay downloadable; and runs of the whole registry. */
module Retention {
  import opened Options
  import opened Ranking
  import opened Releases
  import opened ReleaseOrder
  import opened Registry
  import Versions

  datatype Token = Token(releaseId: string, expiresAt: int)

  /** Release rows in rowid order, download tokens by hash, and the artifact files by path. */
  datatype Shelf = Shelf(rows: seq<Entry>, tokens: map<string, Token>, files: map<string, File>)

  datatype Stream = Stream(releaseType: string, productKey: string, channel: string, platform: string)

  function StreamOf(e: Entry): Stream {
    var r := e.release;
    Stream(TypeOf(r), if TypeOf(r) == DESKTOP then DESKTOP_KEY else r.productKey.Or(r.productId).GetOr(""), r.channel, r.platform)
  }

  /** Created later, or at the same time and inserted later. */
  predicate Newer(rows: seq<Entry>, j: nat, i: nat) {
    && i < |rows| && j < |rows|
    && (rows[j].release.createdAt > rows[i].release.createdAt || (rows[j].release.createdAt == rows[i].release.createdAt && j > i))
  }

  function NewestFirst(rows: seq<Entry>): (nat, nat) -> bool {
    (j: nat, i: nat) => Newer(rows, j, i)
  }

  function StreamRows(rows: seq<Entry>, stream: Stream): set<nat> {
    set i | 0 <= i < |rows| && StreamOf(rows[i]) == stream
  }

  /** The newest `keep` rows of the stream. */
  function Kept(rows: seq<Entry>, stream: Stream, keep: nat): set<nat> {
    First(StreamRows(rows, stream), NewestFirst(rows), keep)
  }

  function Stale(rows: seq<Entry>, stream: Stream, keep: nat): set<nat> {
    StreamRows(rows, stream) - Kept(rows, stream, keep)
  }

  /** Paths named by stale rows and by no other row. */
  function UnsharedPaths(rows: seq<Entry>, stale: set<nat>): set<string> {
    (set i | i in stale && i < |rows| :: rows[i].path)
    - (set i | 0 <= i < |rows| && i !in stale :: rows[i].path)
    - {""}
  }

  /** Unshared paths that exist, or whose check fails and must be reported. */
  function Targets(s: Shelf, stale: set<nat>, failing: set<string>): set<string> {
    set p | p in UnsharedPaths(s.rows, stale) && (p in s.files || p in failing)
  }

  /** Stale rows still published in some way, or whose file is to go. */
  function ToPrune(s: Shelf, stale: set<nat>, targets: set<string>): set<nat> {
    set i | i in stale && i < |s.rows|
      && (s.rows[i].release.isActive || s.rows[i].release.isPublished == Some(true) || s.rows[i].path in targets)
  }

  function Retired(e: Entry, now: int): Entry {
    e.(release := e.release.(isActive := false, isPublished := Some(false), updatedAt := now))
  }

  function RetireRows(rows: seq<Entry>, pruned: set<nat>, now: int): seq<Entry> {
    seq(|rows|, i requires 0 <= i < |rows| => if i in pruned then Retired(rows[i], now) else rows[i])
  }

  function IdsOf(rows: seq<Entry>, some: set<nat>): set<string> {
    set i | i in some && i < |rows| :: rows[i].release.id
  }

  function DropTokens(tokens: map<string, Token>, ids: set<string>): map<string, Token> {
    map h | h in tokens && tokens[h].releaseId !in ids :: tokens[h]
  }

  /** The store after keeping the newest `keep` of the stream; `failing` are paths whose file operations raise. */
  function AfterPrune(s: Shelf, stream: Stream, keep: nat, failing: set<string>, now: int): Shelf {
    if keep == 0 then s
    else
      var stale := Stale(s.rows, stream, keep);
      var targets := Targets(s, stale, failing);
      var pruned := ToPrune(s, stale, targets);
      if pruned == {} then s
      else Shelf(RetireRows(s.rows, pruned, now), DropTokens(s.tokens, IdsOf(s.rows, pruned)), s.files - (targets - failing))
  }

  datatype Download = InvalidToken | ExpiredToken | InactiveRelease | MissingArtifact | Served(entry: Entry)

  function Resolve(s: Shelf, hash: string, now: int): Download {
    if hash !in s.tokens then InvalidToken
    else
      var token := s.tokens[hash];
      var found := FindEntry(s.rows, token.releaseId);
      if found.None? then InvalidToken
      else
        var e := s.rows[found.value];
        if token.expiresAt <= now then ExpiredToken
        else if !e.release.isActive then InactiveRelease
        else if e.path !in s.files then MissingArtifact
        else Served(e)
  }

  predicate UniqueEntryIds(rows: seq<Entry>) {
    forall i, j :: 0 <= i < j < |rows| ==> rows[i].release.id != rows[j].release.id
  }

  lemma RetiringKeepsStreams(rows: seq<Entry>, pruned: set<nat>, now: int, stream: Stream, keep: nat)
    ensures Stale(RetireRows(rows, pruned, now), stream, keep) == Stale(rows, stream, keep)
    ensures forall stale :: UnsharedPaths(RetireRows(rows, pruned, now), stale) == UnsharedPaths(rows, stale)
  {
    var after := RetireRows(rows, pruned, now);
    assert forall i :: 0 <= i < |rows| ==> StreamOf(after[i]) == StreamOf(rows[i]) && after[i].path == rows[i].path;
    assert StreamRows(after, stream) == StreamRows(rows, stream);
    SameOrderSameFirst(StreamRows(rows, stream), NewestFirst(rows), NewestFirst(after), keep);
    forall stale
      ensures UnsharedPaths(after, stale) == UnsharedPaths(rows, stale)
    {
      assert (set i | i in stale && i < |after| :: after[i].path) == (set i | i in stale && i < |rows| :: rows[i].path);
      assert (set i | 0 <= i < |after| && i !in stale :: after[i].path) == (set i | 0 <= i < |rows| && i !in stale :: rows[i].path);
    }
  }

  /** Exactly `keep` rows of a stream are kept, or all of them when it has no more, and each was created later than every
      stale one, or at the same time and inserted later. */
  lemma KeptAreNewest(rows: seq<Entry>, stream: Stream, keep: nat)
    ensures |Kept(rows, stream, keep)| == if keep <= |StreamRows(rows, stream)| then keep else |StreamRows(rows, stream)|
    ensures forall i, j :: i in Kept(rows, stream, keep) && j in Stale(rows, stream, keep) ==>
      (rows[i].release.createdAt > rows[j].release.createdAt || (rows[i].release.createdAt == rows[j].release.createdAt && i > j))
  {
    NewestFirstOrders(rows, stream);
    FirstSize(StreamRows(rows, stream), NewestFirst(rows), keep);
    forall i, j | i in Kept(rows, stream, keep) && j in Stale(rows, stream, keep)
      ensures rows[i].release.createdAt > rows[j].release.createdAt || (rows[i].release.createdAt == rows[j].release.createdAt && i > j)
    {
      KeptIsNewerThanStale(rows, stream, keep, i, j);
    }
  }

  lemma NewestFirstOrders(rows: seq<Entry>, stream: Stream)
    ensures Orders(NewestFirst(rows), StreamRows(rows, stream))
  {
  }

  lemma KeptIsNewerThanStale(rows: seq<Entry>, stream: Stream, keep: nat, i: nat, j: nat)
    requires i in Kept(rows, stream, keep) && j in Stale(rows, stream, keep)
    ensures Newer(rows, i, j)
  {
    NewestFirstOrders(rows, stream);
    FirstPrecedeRest(StreamRows(rows, stream), NewestFirst(rows), keep, i, j);
  }

  /** Two rows are of one stream when type, channel and platform agree and, but for desktop releases, the product key, or
      the product of a row without one. */
  lemma StreamsByColumns(x: Entry, y: Entry)
    ensures StreamOf(x) == StreamOf(y) <==>
      (Kind(x.release) == Kind(y.release) && x.release.channel == y.release.channel && x.release.platform == y.release.platform
       && (Kind(x.release) == "trader_desktop" || ProductKey(x.release) == ProductKey(y.release)))
  {
  }

  function ProductKey(r: Release): string {
    if r.productKey.Some? then r.productKey.value else if r.productId.Some? then r.productId.value else ""
  }

  /** A download is served exactly while its token has not run out and its release is active with its file there. */
  lemma ServedExactly(s: Shelf, hash: string, now: int, e: Entry)
    requires UniqueEntryIds(s.rows)
    ensures Resolve(s, hash, now) == Served(e) <==>
      (hash in s.tokens && now < s.tokens[hash].expiresAt && e in s.rows && e.release.id == s.tokens[hash].releaseId
       && e.release.isActive && e.path in s.files)
  {
    if hash in s.tokens && e in s.rows && e.release.id == s.tokens[hash].releaseId {
      var i :| 0 <= i < |s.rows| && s.rows[i] == e;
      var j := FindEntry(s.rows, s.tokens[hash].releaseId).value;
      assert s.rows[j].release.id == s.rows[i].release.id;
    }
  }

  /** Pruning deletes a stale row's file when no other row names it and its removal does not fail. */
  lemma StaleFilesAreDeleted(s: Shelf, stream: Stream, keep: nat, failing: set<string>, now: int, i: nat)
    requires keep > 0 && i in Stale(s.rows, stream, keep) && s.rows[i].path != "" && s.rows[i].path !in failing
    requires forall j :: 0 <= j < |s.rows| && j !in Stale(s.rows, stream, keep) ==> s.rows[j].path != s.rows[i].path
    ensures s.rows[i].path !in AfterPrune(s, stream, keep, failing, now).files
  {
    var stale := Stale(s.rows, stream, keep);
    var targets := Targets(s, stale, failing);
    if s.rows[i].path in s.files {
      assert s.rows[i].path in UnsharedPaths(s.rows, stale);
      assert i in ToPrune(s, stale, targets);
    }
  }

  /** A row that pruning changes is marked at that time, was stale and still active or published or lost its file, and keeps
      no token; nothing else about it changes. */
  lemma RetiredRowsLoseTokens(s: Shelf, stream: Stream, keep: nat, failing: set<string>, now: int, i: nat)
    requires keep > 0 && i < |s.rows|
    ensures var after, before := AfterPrune(s, stream, keep, failing, now), s.rows[i];
      && |after.rows| == |s.rows|
      && (i in Stale(s.rows, stream, keep) && (before.release.isActive || before.release.isPublished == Some(true)) ==>
            after.rows[i].release.updatedAt == now && forall hash :: hash in after.tokens ==> after.tokens[hash].releaseId != before.release.id)
      && (after.rows[i] == before || after.rows[i] ==
            before.(release := before.release.(isActive := false, isPublished := Some(false), updatedAt := now)))
      && forall hash :: hash in after.tokens ==> hash in s.tokens && after.tokens[hash] == s.tokens[hash]
  {
    var stale := Stale(s.rows, stream, keep);
    var targets := Targets(s, stale, failing);
    if i in stale && (s.rows[i].release.isActive || s.rows[i].release.isPublished == Some(true)) {
      assert i in ToPrune(s, stale, targets);
      assert s.rows[i].release.id in IdsOf(s.rows, ToPrune(s, stale, targets));
    }
  }

  /** Pruning deletes no other file, and no token but those of the rows it retires. */
  lemma NothingElseIsDeleted(s: Shelf, stream: Stream, keep: nat, failing: set<string>, now: int, path: string, hash: string)
    requires keep > 0
    ensures path in s.files && path !in AfterPrune(s, stream, keep, failing, now).files ==>
      exists i :: i in Stale(s.rows, stream, keep) && s.rows[i].path == path
    ensures hash in s.tokens && hash !in AfterPrune(s, stream, keep, failing, now).tokens ==>
      exists i :: i in Stale(s.rows, stream, keep) && s.rows[i].release.id == s.tokens[hash].releaseId
  {
  }

  /** After pruning, no row past the newest `keep` of the stream is active or can be downloaded; every other row and
      every file such a row names is as before. */
  lemma PruneRetiresExactlyTheStale(s: Shelf, stream: Stream, keep: nat, failing: set<string>, now: int, i: nat)
    requires keep > 0 && i < |s.rows|
    ensures var after := AfterPrune(s, stream, keep, failing, now);
      && |after.rows| == |s.rows|
      && (i in Stale(s.rows, stream, keep) ==>
            !after.rows[i].release.isActive && after.rows[i].release.isPublished != Some(true)
            && forall hash, t :: Resolve(after, hash, t) != Served(after.rows[i]))
      && (i !in Stale(s.rows, stream, keep) ==>
            after.rows[i] == s.rows[i]
            && (s.rows[i].path in s.files ==> s.rows[i].path in after.files && after.files[s.rows[i].path] == s.files[s.rows[i].path]))
  {
    var stale := Stale(s.rows, stream, keep);
    var targets := Targets(s, stale, failing);
    if i in stale {
      assert s.rows[i].release.isActive || s.rows[i].release.isPublished == Some(true) ==> i in ToPrune(s, stale, targets);
    } else {
      assert s.rows[i].path !in UnsharedPaths(s.rows, stale);
    }
  }

  /** The release a token names, if it still exists. */
  function TokenRow(s: Shelf, hash: string): Option<nat> {
    if hash in s.tokens then FindEntry(s.rows, s.tokens[hash].releaseId) else None
  }

  /** A token that does not name a stale row still answers as before. */
  lemma PruneKeepsOtherTokens(s: Shelf, stream: Stream, keep: nat, failing: set<string>, now: int, hash: string, t: int)
    requires keep > 0 && UniqueEntryIds(s.rows) && hash in s.tokens
    requires TokenRow(s, hash).Some? && TokenRow(s, hash).value !in Stale(s.rows, stream, keep)
    ensures var after := AfterPrune(s, stream, keep, failing, now);
      hash in after.tokens && Resolve(after, hash, t) == Resolve(s, hash, t)
  {
    var after, i := AfterPrune(s, stream, keep, failing, now), TokenRow(s, hash).value;
    PruneKeepsIds(s, stream, keep, failing, now);
    PruneKeepsToken(s, stream, keep, failing, now, hash);
    SameIdsSameEntry(s.rows, after.rows, s.tokens[hash].releaseId);
    PruneRetiresExactlyTheStale(s, stream, keep, failing, now, i);
    SameRowSameAnswer(s, after, hash, i, t);
  }

  lemma PruneKeepsIds(s: Shelf, stream: Stream, keep: nat, failing: set<string>, now: int)
    ensures var after := AfterPrune(s, stream, keep, failing, now);
      |after.rows| == |s.rows| && after.files.Keys <= s.files.Keys
      && forall i :: 0 <= i < |s.rows| ==> after.rows[i].release.id == s.rows[i].release.id
  {
  }

  lemma PruneKeepsToken(s: Shelf, stream: Stream, keep: nat, failing: set<string>, now: int, hash: string)
    requires UniqueEntryIds(s.rows) && hash in s.tokens
    requires TokenRow(s, hash).Some? && TokenRow(s, hash).value !in Stale(s.rows, stream, keep)
    ensures var after := AfterPrune(s, stream, keep, failing, now);
      hash in after.tokens && after.tokens[hash] == s.tokens[hash]
  {
    var stale := Stale(s.rows, stream, keep);
    var pruned := ToPrune(s, stale, Targets(s, stale, failing));
    assert s.tokens[hash].releaseId !in IdsOf(s.rows, pruned);
  }

  lemma SameRowSameAnswer(s: Shelf, after: Shelf, hash: string, i: nat, t: int)
    requires hash in s.tokens && hash in after.tokens && after.tokens[hash] == s.tokens[hash]
    requires FindEntry(s.rows, s.tokens[hash].releaseId) == Some(i) == FindEntry(after.rows, s.tokens[hash].releaseId)
    requires after.rows[i] == s.rows[i] && (s.rows[i].path in after.files <==> s.rows[i].path in s.files)
    ensures Resolve(after, hash, t) == Resolve(s, hash, t)
  {
  }

  lemma {:induction false} SameIdsSameEntry(rows: seq<Entry>, after: seq<Entry>, id: string)
    requires |after| == |rows| && forall i :: 0 <= i < |rows| ==> after[i].release.id == rows[i].release.id
    ensures FindEntry(after, id) == FindEntry(rows, id)
  {
    if rows != [] {
      SameIdsSameEntry(rows[..|rows| - 1], after[..|after| - 1], id);
    }
  }

  /** With no failing path, pruning again at once changes nothing. */
  lemma SecondPruneDoesNothing(s: Shelf, stream: Stream, keep: nat, now: int, later: int)
    ensures var after := AfterPrune(s, stream, keep, {}, now);
      AfterPrune(after, stream, keep, {}, later) == after
  {
    if keep > 0 {
      var stale := Stale(s.rows, stream, keep);
      var targets := Targets(s, stale, {});
      var pruned := ToPrune(s, stale, targets);
      var after := AfterPrune(s, stream, keep, {}, now);
      RetiringKeepsStreams(s.rows, pruned, now, stream, keep);
      if pruned != {} {
        assert Targets(after, stale, {}) == {};
        forall i | i in stale
          ensures i !in ToPrune(after, stale, {})
        {
        }
        assert ToPrune(after, stale, {}) == {};
      }
    }
  }

  // ----- The store -----

  predicate OneRowEdited(before: seq<Entry>, after: seq<Entry>, id: string, i: nat) {
    && |after| == |before| && i < |before| && before[i].release.id == id
    && after[i].release.id == id && after[i].release.createdAt == before[i].release.createdAt
    && forall j :: 0 <= j < |before| && j != i ==> after[j] == before[j]
  }

  /** One row of this id is rewritten, keeping its id and creation time; every other row is untouched. */
  ghost predicate EditsOneRow(before: seq<Entry>, after: seq<Entry>, id: string) {
    exists i: nat :: OneRowEdited(before, after, id, i)
  }

  datatype PruneResult = NegativeCount | NoSuchRelease | PruneDone(pruned: set<string>, deleted: set<string>, failed: set<string>)

  class ReleaseStore {
    const config: Config
    var rows: seq<Entry>
    var tokens: map<string, Token>
    var files: map<string, File>

    constructor (config: Config, files: map<string, File>)
      ensures this.config == config && Contents() == Shelf([], map[], files)
    {
      this.config, this.files := config, files;
      rows, tokens := [], map[];
    }

    ghost function Contents(): Shelf
      reads this
    {
      Shelf(rows, tokens, files)
    }

    /** The file of a path, if the artifact directory has it. */
    function FileAt(path: string): Option<File>
      reads this
    {
      if path in files then Some(files[path]) else None
    }

    /** A refused form changes nothing; a saved one changes one row and keeps the registry sound. */
    method UpsertRelease(u: Upload, newId: string, now: int) returns (error: Option<UploadError>)
      modifies this`rows
      ensures error == RegisterError(config, old(rows), u, FileAt(u.path))
      ensures rows == Register(config, old(rows), u, FileAt(u.path), newId, now)
      ensures error.Some? ==> rows == old(rows)
      ensures error.None? && u.existingId.None? ==> |rows| == |old(rows)| + 1 && old(rows) <= rows && rows[|old(rows)|].release.id == newId
      ensures error.None? && u.existingId.Some? ==> EditsOneRow(old(rows), rows, u.existingId.value)
      ensures HasKnownType(u) && AllSound(config, old(rows)) ==> AllSound(config, rows)
    {
      error := CheckForm(u);
      if error.Some? {
        return;
      }
      error := CheckProduct(u);
      if error.Some? {
        return;
      }
      error := CheckSignature(u);
      if error.Some? {
        return;
      }
      if HasKnownType(u) && AllSound(config, rows) {
        RegisterKeepsSound(config, rows, u, FileAt(u.path), newId, now);
      }
      error := SaveRelease(u, newId, now);
    }

    /** Inserts the checked row, or rewrites the row it edits. */
    method SaveRelease(u: Upload, newId: string, now: int) returns (error: Option<UploadError>)
      modifies this`rows
      ensures error == if u.existingId.Some? && FindEntry(old(rows), u.existingId.value).None? then Some(ReleaseNotFound) else None
      ensures error.Some? ==> rows == old(rows)
      ensures error.None? && u.existingId.None? ==> rows == old(rows) + [EntryOf(config, u, FileAt(u.path), newId, now, now)]
      ensures error.None? && u.existingId.Some? ==>
        var i := FindEntry(old(rows), u.existingId.value).value;
        rows == old(rows)[i := EntryOf(config, u, FileAt(u.path), old(rows)[i].release.id, old(rows)[i].release.createdAt, now)]
        && EditsOneRow(old(rows), rows, u.existingId.value)
    {
      var file := if u.path in files then Some(files[u.path]) else None;
      if u.existingId.Some? {
        var existing := FindEntry(rows, u.existingId.value);
        if existing.None? {
          return Some(ReleaseNotFound);
        }
        var i := existing.value;
        ghost var before := rows;
        rows := rows[i := EntryOf(config, u, file, rows[i].release.id, rows[i].release.createdAt, now)];
        assert OneRowEdited(before, rows, u.existingId.value, i);
      } else {
        rows := rows + [EntryOf(config, u, file, newId, now, now)];
      }
      return None;
    }

    method CheckForm(u: Upload) returns (error: Option<UploadError>)
      ensures error == FormError(u).Or(FileError(u, FileAt(u.path)))
        .Or(if u.signature.Some? != u.keyId.Some? then Some(KeyIdRequired) else None)
    {
      if u.version == "" {
        return Some(VersionRequired);
      }
      if u.path == "" {
        return Some(PathRequired);
      }
      if u.releaseType != DESKTOP && u.productId.None? {
        return Some(ProductRequired);
      }
      var size := u.size;
      if u.path in files {
        var file := files[u.path];
        if size.Some? && size.value != file.size {
          return Some(SizeMismatch);
        }
        if u.sha.Some? && u.sha.value != file.sha {
          return Some(ShaMismatch);
        }
        size := Some(file.size);
      }
      if size.Some? && size.value < 0 {
        return Some(NegativeSize);
      }
      return if u.signature.Some? != u.keyId.Some? then Some(KeyIdRequired) else None;
    }

    method CheckProduct(u: Upload) returns (error: Option<UploadError>)
      ensures error == PolicyError(config, u)
    {
      if u.releaseType == DESKTOP {
        return None;
      }
      if u.productId.None? || u.productId.value !in config.products {
        return Some(ProductNotFound);
      }
      var product := config.products[u.productId.value];
      if product.allowedChannels != {} && u.channel !in product.allowedChannels {
        return Some(ChannelNotAllowed);
      }
      if product.allowedModes != {} && u.mode !in product.allowedModes {
        return Some(ModeNotAllowed);
      }
      if u.releaseType == STRATEGY && Versions.IsVersion(product.minimumVersion) && u.minimumVersion.Some?
        && (u.existingId.None? || u.isActive) {
        var order := Versions.CompareVersions(u.minimumVersion, product.minimumVersion);
        if order < 0 {
          return Some(BelowCatalogVersion);
        }
      }
      return None;
    }

    method CheckSignature(u: Upload) returns (error: Option<UploadError>)
      ensures error == SignatureError(config, u, FileAt(u.path))
    {
      var size, sha := u.size, u.sha;
      if u.path in files {
        size, sha := Some(files[u.path].size), Some(files[u.path].sha);
      }
      if u.signature.None? {
        return if u.isActive && config.requireSignatures then Some(SignatureRequired) else None;
      }
      if size.None? || sha.None? {
        return Some(UnsizedSignature);
      }
      var envelope := MakeEnvelope(u.releaseType, KeyOf(config, u).GetOr(DESKTOP_KEY), FeatureOf(config, u), u.channel, u.platform,
                                   u.version, MinimumOf(config, u), FilenameOf(u), size.value, sha.value);
      if envelope.None? {
        return Some(InvalidSignature);
      }
      var keyId := VerifiedKeyId(config, u.signature.value, envelope.value);
      if keyId.None? {
        return Some(InvalidSignature);
      }
      return if keyId != u.keyId then Some(WrongKeyId) else None;
    }

    method PruneArtifacts(releaseId: string, keep: int, failing: set<string>, now: int) returns (result: PruneResult)
      modifies this
      ensures keep < 0 ==> result == NegativeCount && Contents() == old(Contents())
      ensures keep == 0 ==> result == PruneDone({}, {}, {}) && Contents() == old(Contents())
      ensures keep > 0 && FindEntry(old(rows), releaseId).None? ==> result == NoSuchRelease && Contents() == old(Contents())
      ensures keep > 0 && FindEntry(old(rows), releaseId).Some? ==>
        && Contents() == AfterPrune(old(Contents()), StreamOf(old(rows)[FindEntry(old(rows), releaseId).value]), keep, failing, now)
        && result.PruneDone? && result.deleted == old(files).Keys - files.Keys && result.failed <= failing
        && forall i :: 0 <= i < |rows| && rows[i] != old(rows)[i] ==> rows[i].release.id in result.pruned
    {
      if keep < 0 {
        return NegativeCount;
      }
      if keep == 0 {
        return PruneDone({}, {}, {});
      }
      var reference := FindEntry(rows, releaseId);
      if reference.None? {
        return NoSuchRelease;
      }
      var stale := Stale(rows, StreamOf(rows[reference.value]), keep);
      var shelf := Shelf(rows, tokens, files);
      var targets := Targets(shelf, stale, failing);
      var pruned := ToPrune(shelf, stale, targets);
      if pruned == {} {
        return PruneDone({}, {}, {});
      }
      var ids := IdsOf(rows, pruned);
      rows := RetireRows(rows, pruned, now);
      tokens := DropTokens(tokens, ids);
      var deleted, failed := DeleteFiles(targets, failing);
      result := PruneDone(ids, deleted, failed);
    }

    method DeleteFiles(paths: set<string>, failing: set<string>) returns (deleted: set<string>, failed: set<string>)
      modifies this`files
      ensures files == old(files) - (paths - failing)
      ensures deleted == (paths - failing) * old(files).Keys && failed == paths * failing
    {
      var left := paths;
      deleted, failed := {}, {};
      while left != {}
        invariant left <= paths
        invariant files == old(files) - ((paths - left) - failing)
        invariant deleted == ((paths - left) - failing) * old(files).Keys && failed == (paths - left) * failing
        decreases left
      {
        var path :| path in left;
        left := left - {path};
        if path in failing {
          failed := failed + {path};
        } else if path in files {
          files := files - {path};
          deleted := deleted + {path};
        }
      }
    }
  }

  // ----- Runs -----

  datatype Action =
    | UploadRelease(u: Upload, file: Option<File>, newId: string, now: int)
    | PruneStream(stream: Stream, keep: nat, files: map<string, File>, failing: set<string>, now: int)

  /** The rows after an action; the files on disk at that moment are part of it. */
  function Act(config: Config, rows: seq<Entry>, action: Action): seq<Entry> {
    match action
    case UploadRelease(u, file, newId, now) => Register(config, rows, u, file, newId, now)
    case PruneStream(stream, keep, files, failing, now) => AfterPrune(Shelf(rows, map[], files), stream, keep, failing, now).rows
  }

  function RunRegistry(config: Config, actions: seq<Action>): seq<Entry> {
    if actions == [] then [] else Act(config, RunRegistry(config, actions[..|actions| - 1]), actions[|actions| - 1])
  }

  predicate KnownType(action: Action) {
    action.UploadRelease? ==> HasKnownType(action.u)
  }

  lemma {:induction false} RegistryStaysSound(config: Config, actions: seq<Action>)
    requires forall i :: 0 <= i < |actions| ==> KnownType(actions[i])
    ensures AllSound(config, RunRegistry(config, actions))
  {
    if actions != [] {
      var head, last := actions[..|actions| - 1], actions[|actions| - 1];
      RegistryStaysSound(config, head);
      var rows := RunRegistry(config, head);
      match last
      case UploadRelease(u, file, newId, now) =>
        assert KnownType(last);
        RegisterKeepsSound(config, rows, u, file, newId, now);
      case PruneStream(stream, keep, files, failing, now) =>
        forall i | 0 <= i < |rows|
          ensures IsSound(config, Act(config, rows, last)[i])
        {
          assert IsSound(config, rows[i]);
        }
    }
  }

  predicate FileIntact(e: Entry, files: map<string, File>) {
    e.path in files && e.size == Some(files[e.path].size) && e.sha == Some(files[e.path].sha)
  }

  lemma {:induction false} SoundRowsFailOnlyOnFiles(config: Config, rows: seq<Entry>, files: map<string, File>)
    requires AllSound(config, rows)
    ensures Failures(config, rows, files) == 0 <==>
      forall i :: 0 <= i < |rows| && Published(rows[i].release) ==> FileIntact(rows[i], files)
  {
    if rows != [] {
      var head, last := rows[..|rows| - 1], rows[|rows| - 1];
      SoundRowsFailOnlyOnFiles(config, head, files);
      assert IsSound(config, last);
      if Published(last.release) {
        AuditPassesExactlyOnRecordedFile(config, last, files);
      }
      assert forall i :: 0 <= i < |head| ==> head[i] == rows[i];
    }
  }

  /** After any run of registrations, edits and prunes, the audit finds no failure exactly when every published row's
      file still has its recorded size and digest; and every active row meets its product's policy and version floor. */
  lemma AuditAgreesWithRegistration(config: Config, actions: seq<Action>, files: map<string, File>)
    requires forall i :: 0 <= i < |actions| ==> KnownType(actions[i])
    ensures var rows := RunRegistry(config, actions);
      && (Failures(config, rows, files) == 0 <==>
            forall i :: 0 <= i < |rows| && Published(rows[i].release) ==> FileIntact(rows[i], files))
      && (forall i :: 0 <= i < |rows| && rows[i].release.isActive && rows[i].release.productId.Some? ==>
            rows[i].release.productId.value in config.products
            && MeetsPolicy(config.products[rows[i].release.productId.value], rows[i]))
      && (config.requireSignatures ==> forall i :: 0 <= i < |rows| && rows[i].release.isActive ==> rows[i].signature.Some?)
  {
    RegistryStaysSound(config, actions);
    var rows := RunRegistry(config, actions);
    SoundRowsFailOnlyOnFiles(config, rows, files);
    forall i | 0 <= i < |rows|
      ensures IsSound(config, rows[i])
    {
    }
  }
}
