# AutoEdge licensing server: verified model

A Dafny model of the licensing server's state machines and codecs, with proofs of what every run keeps.

| File | What it models |
|---|---|
| `Moments.dfy` | Instants in whole microseconds; `Iso` is the truncation to seconds that every stored time goes through |
| `EntitlementRules.dfy` | One Whop event: grant kind, expiry target, ledger fingerprint, and the decision about one row, on the package and the direct path |
| `EventEffects.dfy` | What each event leaves behind, by its status, notices and dates |
| `EntitlementRuns.dfy` | Runs of row updates: coverage only widens, sources are independent |
| `ReplaySafety.dfy` | Exactly which redelivered grants are no-ops |
| `Confluence.dfy` | Expiry as a maximum, so delivery order does not matter |
| `Revocation.dfy` | What can and cannot undo a revocation |
| `DayAccounting.dfy` | One paid period per subscription period; conservation of undated days |
| `WhopEvents.dfy` | `WhopStore`: the tables, updated in place as the service does, tied to the rules |
| `WhopWorkers.dfy` | Webhook workers that interleave and crash between transactions |
| `CurrentGrants.dfy` | The loop that picks one effective grant per product |
| `Ranking.dfy` | The first few members of a set under an order, for device limits and retention |
| `Devices.dfy` | The device table and its limit |
| `LicenseCheck.dfy`, `Lease.dfy` | `LicenseDesk.CheckLicense`, and the lease it issues with its verifier's time checks |
| `Base64Url.dfy`, `DottedText.dfy`, `CompactToken.dfy` | Canonical base64url, dotted segments, R‖S packing, compact token signing and verification |
| `SecretBox.dfy` | The HMAC-keystream secret box |
| `RateLimiter.dfy` | The sliding-window limiter |
| `Versions.dfy`, `Selection.dfy`, `Releases.dfy` | Version order, per-group release selection, manifest and download token |
| `ReleaseOrder.dfy` | Which release is offered and who sees it, by the columns of the rows |
| `Catalog.dfy` | The manifest as a whole: private products, and the download tokens that follow it |
| `Registry.dfy`, `Retention.dfy` | `ReleaseStore`: registration, artifact audit, retention pruning, runs of all three |
| `OAuthSessions.dfy` | `LoginDesk`: the Tradovate OAuth login records |
| `OAuthTokens.dfy` | Which token a completed login hands out, over runs |
| `OAuthRaces.dfy` | The same requests with their status reads and writes as separate steps |

Classes (`WhopStore`, `LicenseDesk`, `ReleaseStore`, `LoginDesk`, `Limiter`) carry the code that updates rows in place.
Each method is proved equal to a function on the old state; the lemmas are about those functions. Lemmas named for columns
(`VisibleByColumns`, `AuditByColumns`) and those of `EventEffects` say what the functions decide without using them.

## Reading the model

- A step takes the instants its clock readings return as parameters. Theorems that need a nondecreasing clock say so
  (`Ordered`, `Nondecreasing`); the others hold for any clock.
- Text that is only compared stands for its hash: a ledger fingerprint is the tuple it hashes, a machine is its stripped
  fingerprint, an OAuth state or session is the value whose hash is stored. A subscription stands for its unique membership id.
- A packaged entitlement's external id is kept as the pair (root, product id). Product ids are hexadecimal, so the last
  colon of the stored text separates the two.
- `Stored(db)` says that database times are whole seconds. It holds of everything the model writes (`CoverageOnlyWidens`
  keeps it); payload times may carry fractions.
- ECDSA, HMAC, SHA-256, JSON and UTF-8 are function-valued parameters. Round-trip lemmas state the laws they need
  (`CompactToken.WritesBack`, `SecretBox.Sound`). Nothing is claimed about cryptographic strength.
- Rows of a package's grants have distinct products, because `migrations/002_whop_packages.sql:28` makes them unique.

## Where the obvious claim fails

- Redelivery. The project README says repeated events never add days twice. A redelivered trial or payment is a no-op when its
  target does not read the clock and is a whole second, or when the payment carries no dates at all (`ReplaySafe`). Every other
  grant is unsafe: after a revocation, a later redelivery of the same event clears the revoked status
  (`UnsafeReplayLiftsRevocation`). The unsafe ones are payments with an end but no start, undated trials, and targets with a
  fraction of a second. Some later redelivery puts the row back in force exactly when the event grants access and its target
  either moves with each delivery or has a fraction of a second and lies past both the row's start and the revocation
  (`RedeliveryAfterRevocation`).
- No-expiry rows. They stay without an end except on the package path, where a suspension that carries an end dates them
  (`LifetimeEndsOnlyByDatedSuspend`).
- Desktop update. The row offered need not be the highest visible one. It is exactly when a highest visible row shares the
  product key of the first visible row listed (`DesktopUpdateIsHighest`). So it always is when the visible rows name their
  product key (`KeyedDesktopRowsGiveTheNewest`); a legacy row without one can hide a required release
  (`LegacyDesktopRowHidesRequired`).
- State labels. `entitlement_states` may read "active" for a product nothing licenses; `ActiveLabels` says exactly when. Only
  `licensed_strategies` and the lease carry authority.
- OAuth handles. A handle returned by a claim or a refresh finds its login exactly when the stored box opens under the current
  secret to the stored session (`HandleFindsLoginExactly`). A refresh after a change of the secret hands out a handle that
  finds nothing (`SecretChangeLosesHandle`).
- OAuth failure. `fail_tradovate_oauth` has no status guard, so an authorized login can become failed; for atomic requests
  statuses still only rise (`StatusNeverGoesDown`). But a request reads the status before its write takes the database lock,
  and neither the token write of `authorize_tradovate_oauth` nor the expiry write of
  `_expire_tradovate_oauth_row_if_needed` looks at the status again. The status then never goes down exactly when no failure
  lands between a read and the write it licenses, and no expiry between a token's read and its write
  (`StatusGoesDownOnlyWhenOvertaken`); otherwise a failed login can become expired or authorized
  (`OvertakenWritesUndoFailures`). The built-in server handles one request at a time (`autoedge_licensing/app.py:2002`), so
  this needs a second process on the same database.
- One period, two events. The project README says a payment and its matching membership update cannot add the same period
  twice. When the earlier event of such a pair adds its days, the pair adds them once exactly when the later one repeats the
  earlier one's payment or period, or aims no further than it reached (`PairPaysOnce`). An undated payment after the dated update of its membership
  adds them again (`UndatedPaymentPaysAgain`).

## Model

| member | source | states |
|---|---|---|
| `Moments.IsoOrder` | autoedge_licensing/service.py:50-52 | writing a time never moves it forward, keeps order, and is idempotent |
| `EventEffects.CancelNoticeChangesNothing` | autoedge_licensing/service.py:2513-2523 | a notice that a membership will end with its period changes no row and no ledger entry, on both paths |
| `EventEffects.SuspensionSuspends` | autoedge_licensing/service.py:2327-2329 | a suspension leaves the row suspended, without revocation time and never in force, a stored end staying |
| `EventEffects.RevocationRevokes` | autoedge_licensing/service.py:2309-2312 | a revocation leaves the row revoked as of now and never in force, a stored end never earlier |
| `EventEffects.ExpiryKeepsRunningRow` | autoedge_licensing/service.py:2312-2323 | an expiry notice leaves a running row in force, on the package path with its end untouched |
| `EventEffects.ExpiryExpiresRunOutRow` | autoedge_licensing/service.py:2324-2326 | an expiry notice leaves a run-out or new row expired, at its own end, the notice's, or now |
| `EventEffects.FirstGiftCreatesRow` | autoedge_licensing/service.py:2226-2300 | a first trial or payment creates a row of its status, ending at its explicit or configured end and starting no later than the payload or, paid, now |
| `EventEffects.LaterGiftUpdatesRow` | autoedge_licensing/service.py:2270-2312 | a later one moves the end only forward, lifts a block only if it does, never demotes an active row, and does nothing if known and undated or not moving the end |
| `EventEffects.PendingEventChangesNothing` | autoedge_licensing/service.py:2532-2534 | a pending event that renews nothing changes nothing |
| `EventEffects.OneRowPerMembership` | autoedge_licensing/service.py:2216-2225 | two membership grants concern one row exactly when membership, package and product agree |
| `EventEffects.FingerprintsAgree` | autoedge_licensing/service.py:2536-2561 | when two trials or payments are one grant: by subject and trial end, payment id, or subject and period |
| `EventEffects.OtherFingerprintsAgree` | autoedge_licensing/service.py:2559-2561 | any other event is remembered by webhook, kind and product |
| `EventEffects.KnownExactly` | autoedge_licensing/service.py:2450-2478 | a grant is known by its fingerprint, or a payment by days already given for its membership period |
| `EventEffects.LedgerNamesEvent` | autoedge_licensing/service.py:2588-2615 | the ledger row names kind, subject, period and the ends before and after as the event and row have them |
| `EventEffects.TrialDaysCover` | autoedge_licensing/service.py:4979-4981 | trial days are the fewest that cover the remaining seconds |
| `EventEffects.SubscriptionTakesStatus` | autoedge_licensing/service.py:5016-5028 | the subscription takes the status of the event, unless it is a stale expiry |
| `EntitlementRuns.CoverageOnlyWidens` | autoedge_licensing/service.py:2081-2329 | over every run, on both paths, a row's start never moves later and a finite end never moves earlier or disappears |
| `EntitlementRuns.SubscriptionEndNeverDecreases` | autoedge_licensing/service.py:2018-2050 | over every run a subscription's stored period end never decreases |
| `EntitlementRuns.LifetimeEndsOnlyByDatedSuspend` | autoedge_licensing/service.py:2287-2329 | a row without an end stays so through a run if and only if no dated package suspension of it occurs |
| `EntitlementRuns.OtherSourcesUntouched` | autoedge_licensing/service.py:2216-2225 | a run about other sources leaves a row as it was |
| `ReplaySafety.FirstDeliverySettles` | autoedge_licensing/service.py:2254-2300 | a replay-safe grant that leaves a row, absent or finite before, is known to the ledger and reached by the row |
| `ReplaySafety.OnlyGrantSettles` | autoedge_licensing/service.py:2199-2300 | the same through a whole run in which no other step is about the row |
| `ReplaySafety.SettledStays` | autoedge_licensing/service.py:2582-2587 | a settled grant stays settled through every run |
| `ReplaySafety.SettledReplayDoesNothing` | autoedge_licensing/service.py:2270-2285 | redelivering a settled replay-safe grant under any webhook id leaves all tables unchanged |
| `ReplaySafety.ReplaysDoNothing` | autoedge_licensing/service.py:2254-2285 | in any run, every later redelivery of a replay-safe grant that took effect is a no-op |
| `ReplaySafety.UnsafeReplayLiftsRevocation` | autoedge_licensing/service.py:2265-2312 | for every other grant, some later redelivery clears the revoked status and time |
| `ReplaySafety.RedeliveryAfterRevocation` | autoedge_licensing/service.py:2265-2312 | after a grant and a revocation, some later redelivery puts the row back in force exactly when the event grants access and its target moves with the clock or is a fraction past start and revocation |
| `ReplaySafety.SafeGrantsDoNotReturn` | autoedge_licensing/service.py:2270-2285 | no replay-safe grant meets that condition |
| `Confluence.FinalExpiryIsFurthest` | autoedge_licensing/service.py:2270-2300 | from a dated row the run ends at the maximum of the old end and all dated targets, whatever is skipped or interleaved |
| `Confluence.NewRowEndsAtFurthest` | autoedge_licensing/service.py:2236-2300 | from no row, dated grants end at the furthest of their targets |
| `Confluence.OrderDoesNotMatter` | autoedge_licensing/service.py:2270-2300 | every permutation of the grants, at any times, gives the same expiry |
| `Confluence.OfferIsBounded` | autoedge_licensing/service.py:4942-4960 | no target lies past the payload's ends or the granted days from the period start or the delivery |
| `Revocation.RevivedOnlyByExtension` | autoedge_licensing/service.py:2101-2126 | on both paths one step revives a blocked or expired row exactly when its target lies past the stored end and, in whole seconds, past now |
| `Revocation.RevocationSticks` | autoedge_licensing/service.py:2296-2329 | without such a grant no run under a nondecreasing clock puts the row back in force |
| `Revocation.NoticesAndReplaysKeepRevocation` | autoedge_licensing/service.py:2309-2329 | expiry, suspension and ignored notices and settled redeliveries never undo a revocation |
| `DayAccounting.NoPeriodPaidTwice` | autoedge_licensing/service.py:2450-2478 | over every run at most one ledger row pays days for a period of a subscription, and fingerprints are unique |
| `DayAccounting.PaymentsExtend` | autoedge_licensing/service.py:2237-2244 | distinct undated payments give the fold of max(end, now) plus days, and the ledger gains exactly those days |
| `DayAccounting.DaysAreConserved` | autoedge_licensing/service.py:2296-2306 | while coverage never lapses the end moves by exactly the days the ledger adds |
| `DayAccounting.PairPaysOnce` | autoedge_licensing/service.py:2254-2306 | of two paying events of one membership, neither known before, of which the earlier adds the configured days, the later adds them again exactly when it neither repeats the payment or period nor aims no further |
| `DayAccounting.UndatedPaymentPaysAgain` | autoedge_licensing/service.py:2237-2244 | an undated payment with its own id after the dated update of its membership adds the days a second time |
| `WhopEvents.WhopStore.RecordGrantLedger` | autoedge_licensing/service.py:2563-2615 | afterwards the ledger has the fingerprint, earlier rows are as they were, a known fingerprint adds nothing, and unique fingerprints stay unique |
| `WhopEvents.WhopStore.UpsertSubscription` | autoedge_licensing/service.py:1976-2057 | the subscription row becomes the merge of stored and incoming, stale expiries keeping the stored status |
| `WhopEvents.WhopStore.UpsertDirectEntitlement` | autoedge_licensing/service.py:2059-2197 | the direct path makes the specified decision and writes one row |
| `WhopEvents.WhopStore.DecidePackageGrant` | autoedge_licensing/service.py:2226-2342 | the branches of a package grant compute the specified decision |
| `WhopEvents.WhopStore.ApplyPackageGrant` | autoedge_licensing/service.py:2199-2448 | a package grant writes one row and one ledger row as decided, or nothing for duplicates and ignored events |
| `WhopEvents.WhopStore.UpsertEntitlement` | autoedge_licensing/service.py:1881-1964 | the write transaction is the subscription update followed by each grant in order |
| `WhopWorkers.RunsAreSerial` | autoedge_licensing/service.py:1803-1836 | whatever workers do and wherever they crash, the tables equal a run of the committed transactions in nondecreasing time |
| `WhopWorkers.ProcessedMeansCommitted` | autoedge_licensing/service.py:1803-1835 | a webhook marked processed has had its transaction committed |
| `WhopWorkers.ProcessedIsNotDelivered` | autoedge_licensing/service.py:1807-1809 | a webhook marked processed is not taken up again |
| `WhopWorkers.StepsMarkWebhooks` | autoedge_licensing/service.py:1810-1834 | receiving, failing and finishing are marked on that webhook alone, and a crash marks nothing |
| `WhopWorkers.OnlyCommitsChangeTables` | autoedge_licensing/service.py:1879-1953 | the tables change only by a commit of a webhook marked received |
| `WhopWorkers.CommitSettles` | autoedge_licensing/service.py:1938-1953 | committing a package event settles its replay-safe grants |
| `WhopWorkers.RedeliveryChangesNoEntitlement` | autoedge_licensing/service.py:1799-1836 | after any run with crashes, committing a redelivery whose grants are all settled changes no entitlement and no ledger row |
| `WhopWorkers.CommittedGrantIsAppliedOnce` | autoedge_licensing/service.py:1938-1953 | once a commit applied a replay-safe grant, then after any run with crashes a commit carrying it again leaves its row and ledger days alone, whatever the package's other grants do |
| `WhopWorkers.WorkersKeepCoverage` | autoedge_licensing/service.py:1803-1836 | through every run of crashing workers coverage only widens and no subscription period is paid twice |
| `WhopWorkers.WorkersKeepRevocation` | autoedge_licensing/service.py:1803-1836 | through every such run a revoked or ended row stays out of force unless a committed step extends it |
| `CurrentGrants.SelectGrants` | autoedge_licensing/service.py:4745-4782 | one row per product: a licensed one of furthest end if any is licensed, else the first listed |
| `CurrentGrants.LicensedByColumns` | autoedge_licensing/service.py:4747-4769 | when a row is licensed, by product, status, revocation, start and end |
| `CurrentGrants.BestRowEndsLast` | autoedge_licensing/service.py:4770-4781 | the row reported for a licensed product has no end or the latest end of its licensed rows |
| `CurrentGrants.RowOrderDoesNotMatter` | autoedge_licensing/service.py:4770-4781 | whether a product is licensed, and until when, does not depend on row order |
| `CurrentGrants.LicensedMeansHeld` | autoedge_licensing/service.py:4753-4769 | a product is reported licensed if and only if some row of the customer gives it |
| `CurrentGrants.OtherSourcesCannotUnlicense` | autoedge_licensing/service.py:4730-4782 | no run about other sources takes away a product one live source gives |
| `Devices.EffectiveMax` | autoedge_licensing/service.py:4649-4654 | the customer's own limit if set, else the default, raised to one machine if lower |
| `Devices.AllowedSize` | autoedge_licensing/service.py:4678-4690 | the first `limit` machines number `limit`, or all counted machines when there are not that many |
| `Devices.SmallerLimitIsNested` | autoedge_licensing/service.py:4678-4690 | a smaller limit allows a subset |
| `Devices.AtMostLimitMachinesServed` | autoedge_licensing/service.py:4032-4085 | from any table, any interleaving of checks serves at most as many machines as the largest limit used |
| `Devices.ActiveMachineIsNeverDisplaced` | autoedge_licensing/service.py:4049-4085 | a machine answered active is answered active again after any checks under limits no larger |
| `Devices.ChecksKeepMachinesUnique` | autoedge_licensing/service.py:4597-4640 | checks keep one row per customer and fingerprint |
| `Devices.EarlierMachinesAreAllowed` | autoedge_licensing/service.py:4678-4690 | if a machine is allowed, so is each one licensed before it, or then seen or inserted before it |
| `Devices.LicensedMachineAnswer` | autoedge_licensing/service.py:4049-4087 | a machine licensed before is answered active exactly when fewer than the limit were licensed before it, so a lowered limit serves the earliest |
| `Devices.OtherMachineAnswer` | autoedge_licensing/service.py:4032-4087 | a blocked machine is refused, and a newcomer needs room among the licensed ones |
| `Devices.UnknownMachineAnswer` | autoedge_licensing/service.py:4597-4640 | so does an unknown machine |
| `LicenseCheck.LicenseDesk.UpsertDevice` | autoedge_licensing/service.py:4597-4647 | the machine's row is refreshed, or inserted uncounted |
| `LicenseCheck.LicenseDesk.Admit` | autoedge_licensing/service.py:4032-4087 | the machine is answered and counted as the device table specifies |
| `LicenseCheck.LicenseDesk.EffectiveGrants` | autoedge_licensing/service.py:4309-4318 | one best row for each product open to the client |
| `LicenseCheck.LicenseDesk.CheckLicense` | autoedge_licensing/service.py:4005-4110 | every answer in terms of all rows and the device table: who is refused and why, the states sent, what is licensed, and the lease |
| `LicenseCheck.MachineIsServedExactly` | autoedge_licensing/service.py:4032-4090 | a stored machine is served exactly when it is not blocked, a product is held, and fewer than the customer's limit of machines come before it |
| `LicenseCheck.MachineRowIsRefreshed` | autoedge_licensing/service.py:4597-4647 | the check refreshes that machine's row only, and an active answer dates its licence |
| `LicenseCheck.BlockingByColumns` | autoedge_licensing/service.py:4784-4796 | without a licence the answer names a revocation, then a suspension, then an expiry |
| `LicenseCheck.VisibleByColumns` | autoedge_licensing/service.py:4309-4318 | which products each client sees |
| `LicenseCheck.LicensedProductsAreHeld` | autoedge_licensing/service.py:4048-4048 | an active answer licenses exactly the products open to the client that some row gives |
| `LicenseCheck.StatesDecideLicence` | autoedge_licensing/service.py:4040-4048 | the chosen grants contain a licensed one exactly when some row of the customer licenses a product open to the client |
| `LicenseCheck.ActiveLabels` | autoedge_licensing/service.py:4325-4340 | a state reads "active" exactly when some row licenses the product, or an active row is held back only by an inactive product or a later start |
| `LicenseCheck.LabelsByColumns` | autoedge_licensing/service.py:4333-4340 | what a state reads for a product nothing licenses |
| `LicenseCheck.ActiveLabelWithoutLicence` | autoedge_licensing/service.py:4333-4340 | an active row of an inactive product reads "active" while the answer is "unlicensed" |
| `LicenseCheck.ActiveAnswerCarriesLease` | autoedge_licensing/service.py:4101-4108 | an active TraderPro answer has a lease, and while it is accepted no licensed row has expired |
| `Lease.LeaseIsExactAndBounded` | autoedge_licensing/signing.py:198-219 | a lease is accepted exactly for iat <= t < exp, never outlives the grace period or a feature, and ends at one of them |
| `Lease.LicensedGrantsGetALease` | autoedge_licensing/service.py:4486-4501 | grants licensed now always get a lease |
| `Lease.LeaseIsIssuedExactly` | autoedge_licensing/service.py:4486-4533 | a lease is issued exactly with a signer, a positive grace period and no grant ending within the second, at that second, for exactly these features and ends |
| `Lease.TimesAreAcceptedExactly` | autoedge_licensing/signing.py:203-218 | the verifier accepts exactly integer claims with iat <= nbf <= now < exp |
| `Base64Url.DecodeInvertsEncode` | autoedge_licensing/signing.py:37-54 | decoding inverts encoding on all byte strings but the empty one, which is refused |
| `Base64Url.AcceptedTexts` | autoedge_licensing/signing.py:41-54 | a text is accepted exactly when it is non-empty, in the alphabet and leaves no digit or bit over, and it re-encodes to itself |
| `Base64Url.DecodeIsInjective` | autoedge_licensing/signing.py:52-54 | two accepted texts with equal bytes are equal |
| `Base64Url.DigitsFollowAlphabet` | autoedge_licensing/signing.py:37-38 | digits are written in the URL-safe alphabet |
| `Base64Url.GroupIsOneNumber` | autoedge_licensing/signing.py:37-38 | three bytes and their four digits are one number, most significant first |
| `Base64Url.ShortGroupIsFilled` | autoedge_licensing/signing.py:37-38 | a short last group is filled with zero bits and cut to its digits |
| `CompactToken.UnpackPacked` | autoedge_licensing/signing.py:136-137 | fixed-width packing of an integer below 256^width unpacks to it |
| `CompactToken.PackUnpacked` | autoedge_licensing/signing.py:188-189 | unpacked bytes pack back to themselves |
| `CompactToken.FirstByteWeighsMost` | autoedge_licensing/signing.py:137 | packed integers are big-endian |
| `CompactToken.PackedSignatureUnpacks` | autoedge_licensing/signing.py:136-189 | R and S come back from their 64 bytes |
| `CompactToken.TokenSplits` | autoedge_licensing/signing.py:166-169 | a signed token splits into exactly its three segments |
| `CompactToken.VerifyInvertsSign` | autoedge_licensing/signing.py:130-197 | verifying a signed token gives back header and payload, or fails only for kind, version, issuer or audience |
| `CompactToken.AcceptedTokenIsCanonical` | autoedge_licensing/signing.py:166-191 | an accepted token is the encoding of its three byte strings, the signature being 64 bytes |
| `CompactToken.AcceptedExactlyWhenGenuine` | autoedge_licensing/signing.py:154-197 | a token is accepted exactly when its three canonical segments name ES256, the type and a known key, its 64 bytes pass that key's check of the first two, and the payload has the kind, version and parties expected |
| `CompactToken.SignedTokenLayout` | autoedge_licensing/signing.py:130-138 | what a signed token consists of |
| `SecretBox.TokenKeystream` | autoedge_licensing/security.py:37-46 | the loop yields exactly the requested bytes of the numbered blocks, or nothing past the 4-byte counter |
| `SecretBox.ShorterStreamIsPrefix` | autoedge_licensing/security.py:37-46 | a shorter stream is a prefix of a longer one |
| `SecretBox.DecryptInvertsEncrypt` | autoedge_licensing/security.py:49-84 | opening a sealed text gives it back, for every secret and nonce |
| `SecretBox.SealedLayout` | autoedge_licensing/security.py:49-60 | a sealed text is nonce, ciphertext and tag, each cipher bit the exclusive or of plain and keystream bit |
| `SecretBox.OpensExactlyBoxes` | autoedge_licensing/security.py:63-84 | a value opens exactly when its tag holds under the secret, to its deciphered text |
| `RateLimiter.Limiter.Allow` | autoedge_licensing/app.py:91-105 | while the clock does not go back, a call is allowed exactly when its window of the whole history has room, and the stored lists stay prunings of that history |
| `RateLimiter.RefusedOnlyWhenFull` | autoedge_licensing/app.py:96-105 | a call is refused exactly when its window holds `limit` allowed hits of its key in the whole history |
| `RateLimiter.NoWindowExceedsLimit` | autoedge_licensing/app.py:96-105 | no closed 60-second window holds more than `limit` allowed hits of a key |
| `RateLimiter.OtherKeysDoNotMatter` | autoedge_licensing/app.py:99-104 | a key gets the answers it would get alone |
| `Versions.ParseVersionParts` | autoedge_licensing/service.py:200-210 | the loop computes the numeric parts |
| `Versions.CompareVersions` | autoedge_licensing/service.py:226-240 | padding and comparing the lists gives the specified order |
| `Versions.CompareIsTotalPreorder` | autoedge_licensing/service.py:226-240 | the comparison is a total preorder although each pair is padded on its own |
| `Versions.FirstDigitWeighsMost` | autoedge_licensing/service.py:200-210 | parts are decimal numbers, other characters skipped |
| `Versions.PartsAreSeparated` | autoedge_licensing/service.py:205 | dots and dashes separate the parts |
| `Versions.AboveAtFirstDifference` | autoedge_licensing/service.py:226-240 | a version is above another exactly when its part is greater where they first differ |
| `Selection.SelectVisible` | autoedge_licensing/service.py:2788-2799 | one row per group with a visible row: the highest, earliest among equals; denials are listed in order |
| `Releases.KeysRank` | autoedge_licensing/service.py:2698-2705 | the sort key is a strict weak order |
| `Releases.ManifestReleases` | autoedge_licensing/service.py:3082-3114 | the manifest's package releases are such a selection of the offered candidates |
| `ReleaseOrder.ManifestOffersTheNewest` | autoedge_licensing/service.py:2698-2705 | of the visible releases of a type and key, none is on a higher channel than the one offered, nor required when it is not, nor updated later, created later or numbered higher |
| `ReleaseOrder.AboveByColumns` | autoedge_licensing/service.py:2698-2705 | when one release is above another, by those columns |
| `ReleaseOrder.VisibleByColumns` | autoedge_licensing/service.py:2707-2778 | who sees a release, by mode, lists, tags, rollout and channel |
| `ReleaseOrder.GroupsByTypeAndKey` | autoedge_licensing/service.py:3108-3113 | package releases are one group exactly when type and key agree |
| `ReleaseOrder.TokenByColumns` | autoedge_licensing/service.py:3226-3313 | when a release gets a token, by its columns, the licensed products and its audience |
| `Releases.TokensMatchManifest` | autoedge_licensing/service.py:3226-3313 | each manifest release gets a token for itself, and each tokened package release is covered in its group by one not outranked |
| `Releases.DesktopUpdateIsHighest` | autoedge_licensing/service.py:3127-3152 | the update offered is outranked by no visible row exactly when a highest visible row shares the product key of the first visible row |
| `ReleaseOrder.DesktopByColumns` | autoedge_licensing/service.py:3127-3146 | which rows are desktop candidates, and how they group |
| `Releases.KeyedDesktopRowsGiveTheNewest` | autoedge_licensing/service.py:3145-3152 | with product keys on all visible desktop rows one row is selected, and it is the highest |
| `Releases.LegacyDesktopRowHidesRequired` | autoedge_licensing/service.py:3140-3152 | of two visible desktop candidates, the one without a product key is offered above a required release |
| `Catalog.OfferedPrivateProductIsVisible` | autoedge_licensing/service.py:2836-2873 | a private release selected from the whole licence belongs to a visible product |
| `Catalog.PrivateProductsStayOut` | autoedge_licensing/service.py:2801-2957 | whatever the licence answer, a hidden private product is in no package, release, licensed entry, state or lease feature, and everything else is kept; without an active answer every private product is hidden |
| `Catalog.HiddenByColumns` | autoedge_licensing/service.py:2811-2873 | which private products are hidden, and that active, enabled products not hidden are listed |
| `Catalog.ShownLeaseIsForShownGrants` | autoedge_licensing/service.py:2875-2928 | a lease reissued for the manifest is for exactly the grants shown |
| `Catalog.LicensedProductsAreSold` | autoedge_licensing/service.py:4309-4318 | what a TraderPro answer licenses is active and enabled in the catalog |
| `Catalog.EarliestEndIsMinimum` | autoedge_licensing/service.py:2907-2912 | the top-level end is the least end of the entries shown |
| `Catalog.ManifestThenTokens` | autoedge_licensing/service.py:3212-3233 | after an active manifest and the token's own licence check on the machine just admitted, each listed release gets its token exactly while its product is held |
| `Catalog.TokensAtOnce` | autoedge_licensing/service.py:3204-3253 | at one instant both licence checks license the same products, each listed release gets its token, and each token for a requested package release is covered by the manifest |
| `Registry.Audit` | scripts/audit_release_artifacts.py:38-81 | the loop counts the published rows with problems |
| `Registry.RegisterKeepsSound` | autoedge_licensing/service.py:1128-1206 | a registration or edit keeps every active row within policy and floor and its signature valid for the row as stored |
| `Registry.RegisteredExactly` | autoedge_licensing/service.py:1080-1206 | a form is registered exactly when complete, in agreement with the file, within policy, signed as it must be, and editing only an existing row |
| `Registry.SavedRowStoresForm` | autoedge_licensing/service.py:1207-1320 | the saved row stores the form, the file's size and digest, and the defaults for blanks |
| `Registry.AuditByColumns` | scripts/audit_release_artifacts.py:38-72 | a published row passes exactly when its file has the recorded size and digest and its signature holds |
| `Retention.RegistryStaysSound` | autoedge_licensing/service.py:1023-1345 | so does every run of registrations, edits and prunes |
| `Retention.AuditAgreesWithRegistration` | scripts/audit_release_artifacts.py:38-72 | after any run the audit finds nothing exactly when every published row's file has its recorded size and digest |
| `Retention.KeptAreNewest` | autoedge_licensing/service.py:919-943 | of a stream exactly `keep` rows are kept, or all if it has no more, each created later than every stale one, or inserted later at the same time |
| `Retention.StreamsByColumns` | autoedge_licensing/service.py:932-939 | which rows are one stream |
| `Retention.PruneRetiresExactlyTheStale` | autoedge_licensing/service.py:943-1015 | stale rows are inactive and undownloadable; other rows and the files they name are unchanged |
| `Retention.StaleFilesAreDeleted` | autoedge_licensing/service.py:946-1010 | a stale row's file goes when no other row names it and its removal does not fail |
| `Retention.NothingElseIsDeleted` | autoedge_licensing/service.py:946-988 | no other file, and no token of another row, goes |
| `Retention.RetiredRowsLoseTokens` | autoedge_licensing/service.py:969-988 | a retired row is marked at that time and keeps no token |
| `Retention.PruneKeepsOtherTokens` | autoedge_licensing/service.py:984-988 | tokens of other releases answer as before |
| `Retention.ServedExactly` | autoedge_licensing/service.py:3315-3347 | a download is served exactly while its token has not run out and its release is active with its file there |
| `Retention.SecondPruneDoesNothing` | autoedge_licensing/service.py:969-975 | an immediate second prune is a no-op when no file operation fails |
| `Retention.ReleaseStore.UpsertRelease` | autoedge_licensing/service.py:1023-1345 | the checks in order give the first error, a refused form changes nothing, a saved one adds one row or rewrites one keeping its id and creation time, and the registry stays sound |
| `Retention.ReleaseStore.PruneArtifacts` | autoedge_licensing/service.py:897-1021 | pruning does what the specification says, and nothing for a zero count, a negative count or an unknown release |
| `OAuthSessions.StatusNeverGoesDown` | autoedge_licensing/service.py:4124-4174 | over every interleaving of atomic steps a surviving login keeps its owner and its status never goes down |
| `OAuthRaces.StatusGoesDownOnlyWhenOvertaken` | autoedge_licensing/service.py:4145-4174 | with reads and writes as separate steps, over every interleaving a status never goes down exactly when no failure lands between a read and the write it licenses and no expiry between a token's read and its write |
| `OAuthRaces.OvertakenWritesUndoFailures` | autoedge_licensing/service.py:3799-3843 | a failure between read and write leaves an overdue login expired, and a pending one authorized |
| `OAuthRaces.UndisturbedMovesAreAtomic` | autoedge_licensing/service.py:3702-3852 | with nothing in between, the read and its writes are the atomic callback and authorization |
| `OAuthSessions.TokensGoOnlyToTheOwner` | autoedge_licensing/service.py:4223-4268 | a token is handed out only to the starting customer and device, while authorized and unexpired, and it is the stored one |
| `OAuthTokens.GrantedTokenIsLastGiven` | autoedge_licensing/service.py:3759-4003 | over any run a granted claim hands out the token and end of the last authorization or refresh that gave this login one |
| `OAuthTokens.GrantedExactly` | autoedge_licensing/service.py:4223-4268 | who gets a token, and what everyone else is told |
| `OAuthTokens.CallbackExpiresOverdue` | autoedge_licensing/service.py:4145-4174 | which logins a callback expires |
| `OAuthTokens.StartRemovesExactly` | autoedge_licensing/service.py:4124-4143 | which logins the clean-up removes and expires |
| `OAuthSessions.RunKeepsSessions` | autoedge_licensing/service.py:4270-4297 | under one secret every stored session box opens to its own session and sessions are not shared |
| `OAuthSessions.ReturnedHandleFindsItsLogin` | autoedge_licensing/service.py:3955-4003 | under one secret a handle returned by a claim or a refresh looks up the same login again, after every later run that login survives |
| `OAuthSessions.HandleFindsLoginExactly` | autoedge_licensing/service.py:4270-4297 | under any secret a returned handle finds its login exactly when the stored box opens to the stored session, and finds nothing when a named login's box does not open |
| `OAuthSessions.SecretChangeLosesHandle` | autoedge_licensing/service.py:3986-4003 | refreshing under a new secret a login stored under another returns a handle that finds nothing |
| `SecretBox.OtherSecretDoesNotOpen` | autoedge_licensing/security.py:66-73 | a secret whose tag differs does not open a sealed text |
| `OAuthSessions.LoginDesk.StartLogin` | autoedge_licensing/service.py:3634-3678 | a new state becomes a pending login of the caller, open at least a minute; a state still stored changes nothing; every other login keeps its owner and advances, or is a week old and goes |
| `OAuthSessions.LoginDesk.CallbackContext` | autoedge_licensing/service.py:3702-3721 | the callback expires an overdue login and reports its status |
| `OAuthSessions.LoginDesk.FailLogin` | autoedge_licensing/service.py:3723-3757 | a stored login ends as failed, whatever it was, with its owner, token and session kept; no other login changes |
| `OAuthSessions.LoginDesk.AuthorizeLogin` | autoedge_licensing/service.py:3759-3852 | the login is authorized afterwards exactly when there is a token and it was pending or authorized and not overdue; only a pending one takes the new token and session; no other login changes |
| `OAuthSessions.LoginDesk.ClaimContext` | autoedge_licensing/service.py:4186-4268 | the lookup, expiry, owner, status and token checks in order |
| `OAuthSessions.LoginDesk.StoreRefresh` | autoedge_licensing/service.py:3955-4003 | a renewed token is stored on an authorized login only, and the handle returned is that login's session handle |

## Left out

- Payload field extraction and substring status matching: events arrive as records with a status and event flags.
- Customer lookup, creation and merging, and the mapping lookup of an event: a delivery carries the customer and mapping it
  resolved to, which may differ between deliveries.
- Admin edits of Whop rows, device blocking by an administrator, product and package editing, and the rows deleted with them.
- Audit-log rows and message texts, except that denied releases are listed.
- Overflow of Python dates, and the audit and ledger timestamps read separately from the grant's own clock reading.
- The clock inside one grant, and inside one licence check, is read once; reads of later grants in the same transaction may differ.
- Response fields that only repeat rows (names, slugs, URLs), states of products whose rows were removed, and the sort orders of response lists.
- NT8 version and revision checks of a registration, scope normalization, and the stripping and lower-casing of form fields.
- Paths that leave the artifact directory, symbolic links, and two texts naming one file: paths are canonical.
- Release envelopes with extra or missing members: claims are compared as a whole record.
- `_b64url_decode` in `security.py` skips characters outside its alphabet; the model's loose decoder refuses them.
- Signed cookies, webhook signature candidates, passwords, session cookies and HTTP handling.
- SQLite locking: each transaction is one atomic step, and unique indexes are preconditions or invariants. The Whop
  write transaction, pruning and the manual entitlement save take the write lock before they read; a licence check takes it with
  its first device write. `OAuthRaces` takes the login requests apart; other requests are taken to meet no conflicting write
  between their reads and their writes.
- Tradovate HTTP calls: an exchange or renewal is an arbitrary token or a failure.
- `OAuthSessions.LoginDesk.StoreRefresh`: does not check the old token's end, as the code does not.
