/** Runs: any sequence of atomic entitlement updates, and what every such run keeps. */
module EntitlementRuns {
  import opened Options
  import opened Moments
  import opened EntitlementRules

  /** The three kinds of row update a committed event is made of. */
  datatype Step =
    | Subscribe(customer: string, event: Event)
    | ToProduct(customer: string, product: string, event: Event, webhookId: string)
    | ToGrant(a: Application)

  datatype Timed = At(now: int, step: Step)

  function Apply(db: Db, t: Timed): Db {
    match t.step
    case Subscribe(customer, event) => ApplySubscription(db, customer, event, t.now)
    case ToProduct(customer, product, event, webhookId) => ApplyDirect(db, customer, product, event, webhookId, t.now)
    case ToGrant(a) => ApplyGrant(db, a, t.now)
  }

  function Exec(db: Db, run: seq<Timed>): Db
    decreases |run|
  {
    if run == [] then db else Exec(Apply(db, run[0]), run[1..])
  }

  predicate Ordered(clock: int, run: seq<Timed>)
    decreases |run|
  {
    run == [] || (clock <= run[0].now && Ordered(run[0].now, run[1..]))
  }

  function LastTime(clock: int, run: seq<Timed>): int
    decreases |run|
  {
    if run == [] then clock else LastTime(run[0].now, run[1..])
  }

  /** The entitlement a step is about. */
  function KeyOf(step: Step): Option<Source> {
    match step
    case Subscribe(_, _) => None
    case ToProduct(_, _, event, webhookId) => Some(DirectKey(event, webhookId))
    case ToGrant(a) => Some(Key(a))
  }

  function EventOf(step: Step): Event {
    match step
    case Subscribe(_, event) => event
    case ToProduct(_, _, event, _) => event
    case ToGrant(a) => a.event
  }

  /** Database times are whole seconds. */
  ghost predicate Stored(db: Db) {
    && (forall key :: key in db.entitlements && db.entitlements[key].expiresAt.Some?
          ==> Whole(db.entitlements[key].expiresAt.value))
    && (forall id :: id in db.subscriptions && db.subscriptions[id].periodEnd.Some?
          ==> Whole(db.subscriptions[id].periodEnd.value))
  }

  lemma {:induction false} ExecConcat(db: Db, first: seq<Timed>, second: seq<Timed>)
    ensures Exec(db, first + second) == Exec(Exec(db, first), second)
    decreases |first|
  {
    if first == [] {
      assert first + second == second;
    } else {
      assert (first + second)[1..] == first[1..] + second;
      ExecConcat(Apply(db, first[0]), first[1..], second);
    }
  }

  lemma ExecOne(db: Db, run: seq<Timed>, i: nat)
    requires i < |run|
    ensures Exec(db, run[..i + 1]) == Apply(Exec(db, run[..i]), run[i])
  {
    assert run[..i + 1] == run[..i] + [run[i]];
    ExecConcat(db, run[..i], [run[i]]);
    var before := Exec(db, run[..i]);
    assert [run[i]][1..] == [];
    assert Exec(before, [run[i]]) == Exec(Apply(before, run[i]), []);
  }

  /** A run is what comes before a step, the step, and what comes after it. */
  lemma ExecAround(db: Db, run: seq<Timed>, i: nat)
    requires i < |run|
    ensures Exec(db, run) == Exec(Apply(Exec(db, run[..i]), run[i]), run[i + 1..])
  {
    ExecOne(db, run, i);
    assert run == run[..i + 1] + run[i + 1..];
    ExecConcat(db, run[..i + 1], run[i + 1..]);
  }

  // ----- Coverage only widens -----

  /** The later row starts no later and ends no earlier; a finite end stays finite. */
  predicate Widens(before: Row, after: Row) {
    && (before.startsAt.Some? ==> after.startsAt.Some? && after.startsAt.value <= before.startsAt.value)
    && (before.expiresAt.Some? ==> after.expiresAt.Some? && before.expiresAt.value <= after.expiresAt.value)
  }

  /** The row a step writes, if it writes one. */
  function DecisionOf(db: Db, t: Timed): Decision {
    match t.step
    case Subscribe(_, _) => Skip
    case ToProduct(_, _, event, webhookId) => DecideDirect(RowAt(db, DirectKey(event, webhookId)), event, t.now)
    case ToGrant(a) => Decide(db, a, t.now)
  }

  lemma DecisionKeepsExpiry(db: Db, t: Timed, before: int)
    requires KeyOf(t.step).Some? && DecisionOf(db, t).Write?
    requires Before(RowAt(db, KeyOf(t.step).value)) == Some(before)
    ensures DecisionOf(db, t).expiresAt.Some? && before <= DecisionOf(db, t).expiresAt.value
  {
  }

  lemma WrittenRowWidens(row: Row, customer: string, product: string, event: Event, decision: Decision, webhookId: string, now: int)
    requires decision.Write?
    requires row.expiresAt.Some? ==>
      Whole(row.expiresAt.value) && decision.expiresAt.Some? && row.expiresAt.value <= decision.expiresAt.value
    ensures Widens(row, WrittenRow(Some(row), customer, product, event, decision, webhookId, now))
  {
    IsoOrder(0, StartsAfter(Some(row), event, now));
    if row.expiresAt.Some? {
      IsoOrder(row.expiresAt.value, decision.expiresAt.value);
    }
  }

  lemma WrittenRowIsStored(existing: Option<Row>, customer: string, product: string, event: Event, decision: Decision, webhookId: string, now: int)
    requires decision.Write?
    ensures var expires := WrittenRow(existing, customer, product, event, decision, webhookId, now).expiresAt;
      expires.Some? ==> Whole(expires.value)
  {
    if decision.expiresAt.Some? {
      IsoOrder(0, decision.expiresAt.value);
    }
  }

  function CustomerOf(step: Step): string {
    match step
    case Subscribe(customer, _) => customer
    case ToProduct(customer, _, _, _) => customer
    case ToGrant(a) => a.customer
  }

  function ProductOf(step: Step): string
    requires !step.Subscribe?
  {
    if step.ToProduct? then step.product else step.a.grant.product
  }

  function WebhookOf(step: Step): string
    requires !step.Subscribe?
  {
    if step.ToProduct? then step.webhookId else step.a.webhookId
  }

  /** A step changes at most the row it is about, as its decision says. */
  lemma StepRows(db: Db, t: Timed)
    ensures KeyOf(t.step).None? || DecisionOf(db, t).Skip? ==> Apply(db, t).entitlements == db.entitlements
    ensures KeyOf(t.step).Some? && DecisionOf(db, t).Write? ==>
      var key := KeyOf(t.step).value;
      Apply(db, t).entitlements == db.entitlements[key :=
        WrittenRow(RowAt(db, key), CustomerOf(t.step), ProductOf(t.step), EventOf(t.step), DecisionOf(db, t), WebhookOf(t.step), t.now)]
    ensures !t.step.Subscribe? ==> Apply(db, t).subscriptions == db.subscriptions
    ensures !t.step.ToGrant? || DecisionOf(db, t).Skip? ==> Apply(db, t).ledger == db.ledger
  {
  }

  lemma StepWidens(db: Db, t: Timed, key: Source)
    requires Stored(db)
    ensures Stored(Apply(db, t))
    ensures key in db.entitlements ==>
      key in Apply(db, t).entitlements && Widens(db.entitlements[key], Apply(db, t).entitlements[key])
  {
    StepRows(db, t);
    if t.step.Subscribe? {
      SubscriptionStaysStored(db, t);
    } else if DecisionOf(db, t).Write? {
      var own, decision := KeyOf(t.step).value, DecisionOf(db, t);
      WrittenRowIsStored(RowAt(db, own), CustomerOf(t.step), ProductOf(t.step), EventOf(t.step), decision, WebhookOf(t.step), t.now);
      if own in db.entitlements {
        var row := db.entitlements[own];
        if row.expiresAt.Some? {
          DecisionKeepsExpiry(db, t, row.expiresAt.value);
        }
        WrittenRowWidens(row, CustomerOf(t.step), ProductOf(t.step), EventOf(t.step), decision, WebhookOf(t.step), t.now);
      }
    }
  }

  lemma SubscriptionStaysStored(db: Db, t: Timed)
    requires Stored(db) && t.step.Subscribe?
    ensures Stored(Apply(db, t))
    ensures forall id :: id in db.subscriptions && db.subscriptions[id].periodEnd.Some? ==>
      && id in Apply(db, t).subscriptions && Apply(db, t).subscriptions[id].periodEnd.Some?
      && db.subscriptions[id].periodEnd.value <= Apply(db, t).subscriptions[id].periodEnd.value
  {
    var info := t.step.event.info;
    if info.membershipId.Some? {
      var id := info.membershipId.value;
      var end := if id in db.subscriptions then Later(db.subscriptions[id].periodEnd, info.expiresAt) else info.expiresAt;
      if end.Some? {
        IsoOrder(0, end.value);
        if id in db.subscriptions && db.subscriptions[id].periodEnd.Some? {
          IsoOrder(db.subscriptions[id].periodEnd.value, end.value);
        }
      }
    }
  }

  lemma {:induction false} CoverageOnlyWidens(db: Db, run: seq<Timed>, key: Source)
    requires Stored(db)
    ensures Stored(Exec(db, run))
    ensures key in db.entitlements ==>
      key in Exec(db, run).entitlements && Widens(db.entitlements[key], Exec(db, run).entitlements[key])
    decreases |run|
  {
    if run != [] {
      StepWidens(db, run[0], key);
      CoverageOnlyWidens(Apply(db, run[0]), run[1..], key);
    }
  }

  lemma {:induction false} SubscriptionEndNeverDecreases(db: Db, run: seq<Timed>, id: string)
    requires Stored(db)
    requires id in db.subscriptions && db.subscriptions[id].periodEnd.Some?
    ensures id in Exec(db, run).subscriptions
    ensures Exec(db, run).subscriptions[id].periodEnd.Some?
    ensures db.subscriptions[id].periodEnd.value <= Exec(db, run).subscriptions[id].periodEnd.value
    decreases |run|
  {
    if run != [] {
      var next := Apply(db, run[0]);
      if run[0].step.Subscribe? {
        SubscriptionStaysStored(db, run[0]);
      }
      StepWidens(db, run[0], Direct(id));
      assert id in next.subscriptions && next.subscriptions[id].periodEnd.Some?;
      SubscriptionEndNeverDecreases(next, run[1..], id);
    }
  }

  /** The one step that dates a row with no end: a package suspension that carries an end. */
  predicate DatedSuspend(step: Step, key: Source) {
    step.ToGrant? && Key(step.a) == key && KindOf(step.a) == Suspend && step.a.event.info.expiresAt.Some?
  }

  lemma {:induction false} LifetimeEndsOnlyByDatedSuspend(db: Db, run: seq<Timed>, key: Source)
    requires Stored(db)
    requires key in db.entitlements && db.entitlements[key].expiresAt.None?
    ensures key in Exec(db, run).entitlements
    ensures Exec(db, run).entitlements[key].expiresAt.None? <==> forall i :: 0 <= i < |run| ==> !DatedSuspend(run[i].step, key)
    decreases |run|
  {
    if run != [] {
      var next := Apply(db, run[0]);
      StepWidens(db, run[0], key);
      assert next.entitlements[key].expiresAt.None? <==> !DatedSuspend(run[0].step, key);
      if DatedSuspend(run[0].step, key) {
        CoverageOnlyWidens(next, run[1..], key);
      } else {
        LifetimeEndsOnlyByDatedSuspend(next, run[1..], key);
        assert forall i :: 0 < i < |run| ==> run[i] == run[1..][i - 1];
        assert forall i :: 0 <= i < |run| - 1 ==> run[1..][i] == run[i + 1];
      }
    }
  }

  // ----- Sources are independent -----

  lemma {:induction false} OtherSourcesUntouched(db: Db, run: seq<Timed>, key: Source)
    requires forall i :: 0 <= i < |run| ==> KeyOf(run[i].step) != Some(key)
    ensures RowAt(Exec(db, run), key) == RowAt(db, key)
    decreases |run|
  {
    if run != [] {
      assert RowAt(Apply(db, run[0]), key) == RowAt(db, key);
      OtherSourcesUntouched(Apply(db, run[0]), run[1..], key);
    }
  }
}
