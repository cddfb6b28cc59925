/** The ledger pays a subscription period once, and its days are exactly what undated payments add. */
module DayAccounting {
  import opened Options
  import opened Moments
  import opened EntitlementRules
  import opened EntitlementRuns

  /** Two ledger rows that both pay days for one period of one subscription. */
  predicate PayTwice(x: LedgerRow, y: LedgerRow) {
    && x.subscription.Some? && x.periodStart.Some?
    && PaysPeriod(x, x.customer, x.packageId, x.product, x.subscription.value, x.periodStart.value)
    && PaysPeriod(y, x.customer, x.packageId, x.product, x.subscription.value, x.periodStart.value)
  }

  predicate PeriodsPaidOnce(ledger: seq<LedgerRow>) {
    forall i, j :: 0 <= i < j < |ledger| ==> !PayTwice(ledger[i], ledger[j])
  }

  lemma StepPaysOnce(db: Db, t: Timed)
    requires PeriodsPaidOnce(db.ledger) && FingerprintsUnique(db.ledger)
    ensures PeriodsPaidOnce(Apply(db, t).ledger) && FingerprintsUnique(Apply(db, t).ledger)
  {
    if t.step.ToGrant? && Apply(db, t).ledger != db.ledger {
      var a := t.step.a;
      var entry := LedgerEntry(a, Before(RowAt(db, Key(a))), Decide(db, a, t.now), t.now);
      forall i | 0 <= i < |db.ledger|
        ensures !PayTwice(db.ledger[i], entry)
      {
        if PayTwice(db.ledger[i], entry) {
          var info := a.event.info;
          assert entry.subscription == info.membershipId && entry.periodStart == IsoOption(info.periodStart);
          assert PaysPeriod(db.ledger[i], a.customer, a.package.id, a.grant.product, info.membershipId.value, Iso(info.periodStart.value));
        }
      }
    }
  }

  /** However events repeat and interleave, no period of a subscription earns days twice. */
  lemma {:induction false} NoPeriodPaidTwice(db: Db, run: seq<Timed>)
    requires PeriodsPaidOnce(db.ledger) && FingerprintsUnique(db.ledger)
    ensures PeriodsPaidOnce(Exec(db, run).ledger) && FingerprintsUnique(Exec(db, run).ledger)
    decreases |run|
  {
    if run != [] {
      StepPaysOnce(db, run[0]);
      NoPeriodPaidTwice(Apply(db, run[0]), run[1..]);
    }
  }

  // ----- Undated payments -----

  /** Days the ledger holds for one entitlement. */
  function LedgerDays(ledger: seq<LedgerRow>, key: Source): nat {
    if ledger == [] then 0
    else
      var last := ledger[|ledger| - 1];
      LedgerDays(ledger[..|ledger| - 1], key) + (if last.entitlement == key then last.daysApplied else 0)
  }

  /** A run about other sources adds no days to this entitlement. */
  lemma {:induction false} OtherSourcesAddNoDays(db: Db, run: seq<Timed>, key: Source)
    requires forall i :: 0 <= i < |run| ==> KeyOf(run[i].step) != Some(key)
    ensures LedgerDays(Exec(db, run).ledger, key) == LedgerDays(db.ledger, key)
    decreases |run|
  {
    if run != [] {
      var next := Apply(db, run[0]);
      assert KeyOf(run[0].step) != Some(key);
      if next.ledger != db.ledger {
        assert next.ledger[..|next.ledger| - 1] == db.ledger;
      }
      OtherSourcesAddNoDays(next, run[1..], key);
    }
  }

  /** One payment starts where coverage ends, or now if it has ended. */
  function PaidUntil(before: Option<int>, days: nat, now: int): int {
    Iso(Later(before, Some(now)).value + days * DAY)
  }

  function Extended(before: Option<int>, payments: seq<Application>, times: seq<int>): Option<int>
    requires |payments| == |times|
    decreases |payments|
  {
    if payments == [] then before
    else Extended(Some(PaidUntil(before, Days(payments[0]).GetOr(0), times[0])), payments[1..], times[1..])
  }

  function TotalDays(payments: seq<Application>): nat {
    if payments == [] then 0 else Days(payments[0]).GetOr(0) + TotalDays(payments[1..])
  }

  function Pay(payments: seq<Application>, times: seq<int>): seq<Timed>
    requires |payments| == |times|
  {
    if payments == [] then [] else [At(times[0], ToGrant(payments[0]))] + Pay(payments[1..], times[1..])
  }

  /** Undated payments for one row, none in the ledger and no two alike. */
  predicate NewPayments(ledger: seq<LedgerRow>, payments: seq<Application>, key: Source) {
    && (forall i :: 0 <= i < |payments| ==>
          Key(payments[i]) == key && Relative(payments[i]) && !Recorded(ledger, FingerprintOf(payments[i])))
    && forall i, j :: 0 <= i < j < |payments| ==> FingerprintOf(payments[i]) != FingerprintOf(payments[j])
  }

  lemma OnePayment(db: Db, a: Application, now: int)
    requires Stored(db) && Relative(a) && !Recorded(db.ledger, FingerprintOf(a))
    requires Key(a) in db.entitlements ==> db.entitlements[Key(a)].expiresAt.Some?
    ensures Key(a) in ApplyGrant(db, a, now).entitlements
    ensures ApplyGrant(db, a, now).entitlements[Key(a)].expiresAt
         == Some(PaidUntil(Before(RowAt(db, Key(a))), Days(a).value, now))
    ensures LedgerDays(ApplyGrant(db, a, now).ledger, Key(a)) == LedgerDays(db.ledger, Key(a)) + Days(a).value
    ensures exists entry :: ApplyGrant(db, a, now).ledger == db.ledger + [entry] && entry.fingerprint == FingerprintOf(a)
  {
    var existing := RowAt(db, Key(a));
    var decision := Decide(db, a, now);
    assert !Duplicate(db.ledger, a) && decision.Write?;
    assert decision.days == Days(a).value;
    var entry := LedgerEntry(a, Before(existing), decision, now);
    assert ApplyGrant(db, a, now).ledger == db.ledger + [entry];
  }

  lemma RestIsNew(ledger: seq<LedgerRow>, entry: LedgerRow, payments: seq<Application>, key: Source)
    requires payments != [] && NewPayments(ledger, payments, key) && entry.fingerprint == FingerprintOf(payments[0])
    ensures NewPayments(ledger + [entry], payments[1..], key)
  {
    forall i | 0 <= i < |payments[1..]|
      ensures !Recorded(ledger + [entry], FingerprintOf(payments[1..][i]))
    {
      assert payments[1..][i] == payments[i + 1];
      assert !Recorded(ledger, FingerprintOf(payments[i + 1]));
    }
  }

  lemma {:induction false} PaymentsExtend(db: Db, payments: seq<Application>, times: seq<int>, key: Source)
    requires Stored(db) && |payments| == |times| && NewPayments(db.ledger, payments, key)
    requires key in db.entitlements ==> db.entitlements[key].expiresAt.Some?
    ensures Before(RowAt(Exec(db, Pay(payments, times)), key)) == Extended(Before(RowAt(db, key)), payments, times)
    ensures LedgerDays(Exec(db, Pay(payments, times)).ledger, key) == LedgerDays(db.ledger, key) + TotalDays(payments)
    decreases |payments|
  {
    if payments != [] {
      var a, run := payments[0], Pay(payments, times);
      var next := ApplyGrant(db, a, times[0]);
      OnePayment(db, a, times[0]);
      var entry :| next.ledger == db.ledger + [entry] && entry.fingerprint == FingerprintOf(a);
      RestIsNew(db.ledger, entry, payments, key);
      StepWidens(db, run[0], key);
      assert run[1..] == Pay(payments[1..], times[1..]);
      PaymentsExtend(next, payments[1..], times[1..], key);
      assert Exec(db, run) == Exec(next, run[1..]);
    }
  }

  /** Coverage is still running at each payment. */
  predicate NeverLapses(end: int, payments: seq<Application>, times: seq<int>)
    requires |payments| == |times|
    decreases |payments|
  {
    payments == [] ||
    (times[0] <= end && NeverLapses(end + Days(payments[0]).GetOr(0) * DAY, payments[1..], times[1..]))
  }

  lemma {:induction false} UnbrokenExtension(end: int, payments: seq<Application>, times: seq<int>)
    requires Whole(end) && |payments| == |times| && NeverLapses(end, payments, times)
    ensures Extended(Some(end), payments, times) == Some(end + TotalDays(payments) * DAY)
    decreases |payments|
  {
    if payments != [] {
      UnbrokenExtension(end + Days(payments[0]).GetOr(0) * DAY, payments[1..], times[1..]);
    }
  }

  lemma UnbrokenDays(end: int, payments: seq<Application>, times: seq<int>, last: Option<int>, days: int)
    requires Whole(end) && |payments| == |times| && NeverLapses(end, payments, times)
    requires last == Extended(Some(end), payments, times) && days == TotalDays(payments)
    ensures last == Some(end + days * DAY)
  {
    UnbrokenExtension(end, payments, times);
  }

  /** What a run of payments leaves: the end of the row, and the days the ledger gained for it. */
  ghost predicate Leaves(db: Db, payments: seq<Application>, times: seq<int>, key: Source, last: Option<int>, days: int)
    requires |payments| == |times|
  {
    var after := Exec(db, Pay(payments, times));
    last == Before(RowAt(after, key)) && days == LedgerDays(after.ledger, key) - LedgerDays(db.ledger, key)
  }

  lemma PaymentsLeave(db: Db, payments: seq<Application>, times: seq<int>, key: Source, last: Option<int>, days: int)
    requires Stored(db) && |payments| == |times| && NewPayments(db.ledger, payments, key)
    requires key in db.entitlements ==> db.entitlements[key].expiresAt.Some?
    requires Leaves(db, payments, times, key, last, days)
    ensures last == Extended(Before(RowAt(db, key)), payments, times) && days == TotalDays(payments)
  {
    PaymentsExtend(db, payments, times, key);
  }

  /** While coverage never lapses, the end moves by exactly the days the ledger adds for that row. */
  lemma DaysAreConserved(db: Db, payments: seq<Application>, times: seq<int>, key: Source, end: int, last: Option<int>, days: int)
    requires Stored(db) && |payments| == |times| && NewPayments(db.ledger, payments, key)
    requires RowAt(db, key).Some? && Before(RowAt(db, key)) == Some(end) && NeverLapses(end, payments, times)
    requires Leaves(db, payments, times, key, last, days)
    ensures last == Some(end + days * DAY)
  {
    WholeEnd(db, key, end);
    PaymentsLeave(db, payments, times, key, last, days);
    UnbrokenDays(end, payments, times, last, days);
  }

  lemma WholeEnd(db: Db, key: Source, end: int)
    requires Stored(db) && RowAt(db, key).Some? && Before(RowAt(db, key)) == Some(end)
    ensures Whole(end)
  {
  }

  // ----- A payment and its membership update -----

  /** Two paying events of one membership for one grant of one package. */
  predicate SameMembership(a: Application, b: Application) {
    && Paying(KindOf(a)) && Paying(KindOf(b))
    && b.customer == a.customer && b.package == a.package && b.grant == a.grant
    && a.event.info.membershipId.Some? && b.event.info.membershipId == a.event.info.membershipId
  }

  /** The later event repeats the earlier one's payment or period, or aims no further than it reached from `before`. */
  predicate PaysOnce(a: Application, b: Application, before: Option<int>, t: int, u: int) {
    || FingerprintOf(b) == FingerprintOf(a)
    || (a.event.info.periodStart.Some? && b.event.info.periodStart.Some?
        && Iso(b.event.info.periodStart.value) == Iso(a.event.info.periodStart.value))
    || (!Relative(b) && Target(b, None, u).GetOr(0) <= Iso(Target(a, before, t).GetOr(0)))
  }

  /** There is no row yet, or the event aims past its end. */
  predicate Reaches(db: Db, a: Application, t: int) {
    Key(a) in db.entitlements ==> Improves(db.entitlements[Key(a)], Target(a, db.entitlements[Key(a)].expiresAt, t))
  }

  /** An event that reaches writes its target and a ledger row with the configured days. */
  lemma ReachingPays(db: Db, a: Application, t: int)
    requires Paying(KindOf(a)) && Days(a).Some? && Reaches(db, a, t) && !Duplicate(db.ledger, a)
    ensures var before, after := Before(RowAt(db, Key(a))), ApplyGrant(db, a, t);
      && Target(a, before, t).Some? && Before(RowAt(after, Key(a))) == Some(Iso(Target(a, before, t).value)) && RowAt(after, Key(a)).Some?
      && Decide(db, a, t).Write? && Decide(db, a, t).days == Days(a).value
      && after.ledger == db.ledger + [LedgerEntry(a, before, Decide(db, a, t), t)]
  {
    assert Decide(db, a, t).Write?;
  }

  /** What the first event adds to the ledger makes the second a duplicate exactly when they share payment or period. */
  lemma KnownAfterFirst(ledger: seq<LedgerRow>, a: Application, b: Application, entry: LedgerRow)
    requires SameMembership(a, b) && !Duplicate(ledger, b)
    requires entry.fingerprint == FingerprintOf(a) && entry.customer == a.customer && entry.packageId == a.package.id
    requires entry.product == a.grant.product && entry.subscription == a.event.info.membershipId && entry.kind == KindOf(a)
    requires entry.daysApplied > 0 && entry.periodStart == IsoOption(a.event.info.periodStart)
    ensures Duplicate(ledger + [entry], b) <==>
      (FingerprintOf(b) == FingerprintOf(a)
       || (b.event.info.periodStart.Some? && IsoOption(a.event.info.periodStart) == Some(Iso(b.event.info.periodStart.value))))
  {
    var after := ledger + [entry];
    assert after[|ledger|] == entry && forall i :: 0 <= i < |ledger| ==> after[i] == ledger[i];
    assert forall i :: 0 <= i < |ledger| ==> after[i].fingerprint != FingerprintOf(b);
    if b.event.info.periodStart.Some? {
      var member, start := b.event.info.membershipId.value, Iso(b.event.info.periodStart.value);
      assert forall i :: 0 <= i < |ledger| ==> !PaysPeriod(after[i], b.customer, b.package.id, b.grant.product, member, start);
      assert PaysPeriod(entry, b.customer, b.package.id, b.grant.product, member, start) <==> entry.periodStart == Some(start);
    }
  }

  /** The days a paying event adds to its entitlement. */
  lemma PaymentAdds(db: Db, b: Application, u: int)
    requires Paying(KindOf(b)) && Days(b).Some?
    ensures LedgerDays(ApplyGrant(db, b, u).ledger, Key(b)) == LedgerDays(db.ledger, Key(b)) +
      if !Duplicate(db.ledger, b) && Reaches(db, b, u) then Days(b).value else 0
  {
    var after := ApplyGrant(db, b, u);
    if after.ledger != db.ledger {
      assert after.ledger[..|after.ledger| - 1] == db.ledger;
    }
  }

  /** A payment and a membership update, in either order: when the earlier one pays, the ledger gains the days of one
      exactly when the later repeats its payment or period or aims no further, and otherwise the days of both. When the
      earlier one pays nothing, the pair pays at most once. */
  lemma PairPaysOnce(db: Db, a: Application, b: Application, t: int, u: int)
    requires SameMembership(a, b) && Days(a).GetOr(0) > 0
    requires !Duplicate(db.ledger, a) && !Duplicate(db.ledger, b)
    ensures var days := LedgerDays(ApplyGrant(ApplyGrant(db, a, t), b, u).ledger, Key(a)) - LedgerDays(db.ledger, Key(a));
      if !Reaches(db, a, t) then 0 <= days <= Days(a).value
      else days == if PaysOnce(a, b, Before(RowAt(db, Key(a))), t, u) then Days(a).value else 2 * Days(a).value
  {
    var before, first := Before(RowAt(db, Key(a))), ApplyGrant(db, a, t);
    assert Key(b) == Key(a) && Days(b) == Days(a);
    PaymentAdds(db, a, t);
    PaymentAdds(first, b, u);
    if Reaches(db, a, t) {
      ReachingPays(db, a, t);
      KnownAfterFirst(db.ledger, a, b, LedgerEntry(a, before, Decide(db, a, t), t));
      TargetPasses(b, Iso(Target(a, before, t).value), u);
    }
  }

  /** An undated payment always aims past the row; any other aims as from no row. */
  lemma TargetPasses(b: Application, end: int, u: int)
    requires Paying(KindOf(b)) && Days(b).GetOr(0) > 0
    ensures Target(b, Some(end), u).Some?
    ensures Target(b, Some(end), u).value > end <==> (Relative(b) || Target(b, None, u).GetOr(0) > end)
  {
  }

  /** An undated payment with an id of its own, after a dated update of its membership that paid, pays a second time. */
  lemma UndatedPaymentPaysAgain(db: Db, update: Application, payment: Application, t: int, u: int)
    requires SameMembership(update, payment) && Days(update).GetOr(0) > 0
    requires Reaches(db, update, t) && !Duplicate(db.ledger, update) && !Duplicate(db.ledger, payment)
    requires update.event.info.paymentId.None? && update.event.info.periodStart.Some?
    requires payment.event.info.paymentId.Some? && Relative(payment)
    ensures LedgerDays(ApplyGrant(ApplyGrant(db, update, t), payment, u).ledger, Key(update))
         == LedgerDays(db.ledger, Key(update)) + 2 * Days(update).value
  {
    PairPaysOnce(db, update, payment, t, u);
  }
}
