/** Concurrent webhook workers that may crash between transactions. */
module WhopWorkers {
  import opened Options
  import opened Moments
  import opened EntitlementRules
  import opened EntitlementRuns
  import opened ReplaySafety
  import opened Revocation
  import opened DayAccounting
  import opened WhopEvents

  datatype WebhookStatus = Received | Processed | Failed

  /** Where a worker is: between the reading, marking, write and closing transactions of one delivery. */
  datatype Worker = Idle | Unseen(d: Delivery) | Marked(d: Delivery) | Committed(d: Delivery)

  /** One committed write transaction. */
  datatype Transaction = Transaction(d: Delivery, grants: seq<Grant>, times: seq<int>)

  predicate WellTimed(tx: Transaction) {
    |tx.times| == |TransactionSteps(tx.d, tx.grants)|
  }

  function Steps(tx: Transaction): seq<Timed> {
    if WellTimed(tx) then Stamp(TransactionSteps(tx.d, tx.grants), tx.times) else []
  }

  /** `commits` records the write transactions in the order they took the write lock. */
  datatype State = State(
    db: Db, webhooks: map<string, WebhookStatus>, workers: map<nat, Worker>, clock: int, commits: seq<Transaction>)

  datatype Action =
    | Deliver(worker: nat, d: Delivery)
    | MarkReceived(worker: nat)
    | Commit(worker: nat, grants: seq<Grant>, times: seq<int>)
    | RollBack(worker: nat)
    | Close(worker: nat)
    | Crash(worker: nat)

  function WorkerAt(s: State, worker: nat): Worker {
    if worker in s.workers then s.workers[worker] else Idle
  }

  function Moved(s: State, worker: nat, to: Worker): State {
    s.(workers := s.workers[worker := to])
  }

  /** An action whose worker is not ready for it does nothing. */
  function Next(s: State, action: Action): State {
    var worker := WorkerAt(s, action.worker);
    match action
    case Deliver(w, d) =>
      if !worker.Idle? || (d.webhookId in s.webhooks && s.webhooks[d.webhookId] == Processed) then s
      else Moved(s, w, Unseen(d))
    case MarkReceived(w) =>
      if !worker.Unseen? then s
      else Moved(s, w, Marked(worker.d)).(webhooks := s.webhooks[worker.d.webhookId := Received])
    case Commit(w, grants, times) =>
      if !worker.Marked? then s
      else
        var tx := Transaction(worker.d, grants, times);
        if !WellTimed(tx) || !Ordered(s.clock, Steps(tx)) then s
        else Moved(s, w, Committed(worker.d)).(
          db := Exec(s.db, Steps(tx)), clock := LastTime(s.clock, Steps(tx)), commits := s.commits + [tx])
    case RollBack(w) =>
      if !worker.Marked? then s
      else Moved(s, w, Idle).(webhooks := s.webhooks[worker.d.webhookId := Failed])
    case Close(w) =>
      if !worker.Committed? then s
      else Moved(s, w, Idle).(webhooks := s.webhooks[worker.d.webhookId := Processed])
    case Crash(w) => Moved(s, w, Idle)
  }

  function Run(s: State, actions: seq<Action>): State
    decreases |actions|
  {
    if actions == [] then s else Run(Next(s, actions[0]), actions[1..])
  }

  function History(commits: seq<Transaction>): seq<Timed> {
    if commits == [] then [] else History(commits[..|commits| - 1]) + Steps(commits[|commits| - 1])
  }

  predicate HasCommitted(commits: seq<Transaction>, webhookId: string) {
    exists i :: 0 <= i < |commits| && commits[i].d.webhookId == webhookId
  }

  /** The tables are a serial execution of the committed transactions, in time order. */
  ghost predicate SerialTables(start: Db, since: int, s: State) {
    && s.db == Exec(start, History(s.commits))
    && Ordered(since, History(s.commits)) && LastTime(since, History(s.commits)) == s.clock
  }

  /** Closing follows committing. */
  ghost predicate ClosedAreCommitted(s: State) {
    && (forall id :: id in s.webhooks && s.webhooks[id] == Processed ==> HasCommitted(s.commits, id))
    && (forall w :: w in s.workers && s.workers[w].Committed? ==> HasCommitted(s.commits, s.workers[w].d.webhookId))
  }

  ghost predicate Serial(start: Db, since: int, s: State) {
    SerialTables(start, since, s) && ClosedAreCommitted(s)
  }

  lemma {:induction false} OrderedConcat(since: int, first: seq<Timed>, second: seq<Timed>)
    requires Ordered(since, first) && Ordered(LastTime(since, first), second)
    ensures Ordered(since, first + second)
    ensures LastTime(since, first + second) == LastTime(LastTime(since, first), second)
    decreases |first|
  {
    if first == [] {
      assert first + second == second;
    } else {
      assert (first + second)[1..] == first[1..] + second;
      OrderedConcat(first[0].now, first[1..], second);
    }
  }

  lemma CommitKeepsTables(start: Db, since: int, s: State, s': State, tx: Transaction)
    requires SerialTables(start, since, s) && Ordered(s.clock, Steps(tx))
    requires s'.commits == s.commits + [tx] && s'.db == Exec(s.db, Steps(tx)) && s'.clock == LastTime(s.clock, Steps(tx))
    ensures SerialTables(start, since, s')
  {
    assert s'.commits[..|s'.commits| - 1] == s.commits;
    assert History(s'.commits) == History(s.commits) + Steps(tx);
    ExecConcat(start, History(s.commits), Steps(tx));
    OrderedConcat(since, History(s.commits), Steps(tx));
  }

  lemma CommittedStays(commits: seq<Transaction>, tx: Transaction, id: string)
    ensures HasCommitted(commits, id) ==> HasCommitted(commits + [tx], id)
    ensures HasCommitted(commits + [tx], tx.d.webhookId)
  {
    assert (commits + [tx])[|commits|] == tx;
    if HasCommitted(commits, id) {
      var i :| 0 <= i < |commits| && commits[i].d.webhookId == id;
      assert (commits + [tx])[i].d.webhookId == id;
    }
  }

  lemma CommitKeepsClosed(s: State, s': State, w: nat, tx: Transaction)
    requires ClosedAreCommitted(s)
    requires s'.commits == s.commits + [tx] && s'.webhooks == s.webhooks && s'.workers == s.workers[w := Committed(tx.d)]
    ensures ClosedAreCommitted(s')
  {
    forall id
      ensures HasCommitted(s.commits, id) || id == tx.d.webhookId ==> HasCommitted(s'.commits, id)
    {
      CommittedStays(s.commits, tx, id);
    }
  }

  lemma NextIsSerial(start: Db, since: int, s: State, action: Action)
    requires Serial(start, since, s)
    ensures Serial(start, since, Next(s, action))
  {
    var s' := Next(s, action);
    if s'.commits != s.commits {
      var tx := Transaction(WorkerAt(s, action.worker).d, action.grants, action.times);
      CommitKeepsTables(start, since, s, s', tx);
      CommitKeepsClosed(s, s', action.worker, tx);
    } else {
      NothingCommitted(s, action);
      OtherActionsKeepClosed(s, action);
    }
  }

  lemma OtherActionsKeepClosed(s: State, action: Action)
    requires ClosedAreCommitted(s) && Next(s, action).commits == s.commits
    ensures ClosedAreCommitted(Next(s, action))
  {
    NothingCommitted(s, action);
  }

  lemma NothingCommitted(s: State, action: Action)
    requires Next(s, action).commits == s.commits
    ensures Next(s, action).db == s.db && Next(s, action).clock == s.clock
    ensures action.Commit? ==> Next(s, action) == s
  {
    if action.Commit? && WorkerAt(s, action.worker).Marked? {
      var tx := Transaction(WorkerAt(s, action.worker).d, action.grants, action.times);
      assert |s.commits + [tx]| != |s.commits|;
    }
  }

  /** Whatever the workers do and wherever they crash, the tables hold one serial execution in time order. */
  lemma {:induction false} RunsAreSerial(start: Db, since: int, s: State, actions: seq<Action>)
    requires Serial(start, since, s)
    ensures Serial(start, since, Run(s, actions))
    decreases |actions|
  {
    if actions != [] {
      NextIsSerial(start, since, s, actions[0]);
      RunsAreSerial(start, since, Next(s, actions[0]), actions[1..]);
    }
  }

  function Fresh(db: Db, clock: int): State {
    State(db, map[], map[], clock, [])
  }

  /** A webhook closed as processed has had its write transaction committed. */
  lemma ProcessedMeansCommitted(db: Db, clock: int, actions: seq<Action>, id: string)
    ensures var s := Run(Fresh(db, clock), actions);
      id in s.webhooks && s.webhooks[id] == Processed ==> HasCommitted(s.commits, id)
  {
    RunsAreSerial(db, clock, Fresh(db, clock), actions);
  }

  /** Through every run of crashing workers coverage only widens, and no subscription period is paid twice. */
  lemma WorkersKeepCoverage(db: Db, clock: int, actions: seq<Action>, key: Source)
    requires Stored(db) && PeriodsPaidOnce(db.ledger) && FingerprintsUnique(db.ledger)
    ensures var after := Run(Fresh(db, clock), actions).db;
      && Stored(after) && PeriodsPaidOnce(after.ledger) && FingerprintsUnique(after.ledger)
      && (key in db.entitlements ==> key in after.entitlements && Widens(db.entitlements[key], after.entitlements[key]))
  {
    RunsAreSerial(db, clock, Fresh(db, clock), actions);
    var history := History(Run(Fresh(db, clock), actions).commits);
    CoverageOnlyWidens(db, history, key);
    NoPeriodPaidTwice(db, history);
  }

  /** Through every run of crashing workers a revoked row stays out of force, unless a committed step extends it. */
  lemma WorkersKeepRevocation(db: Db, clock: int, actions: seq<Action>, key: Source, now: int)
    requires Stored(db) && key in db.entitlements && Dead(db.entitlements[key], clock)
    requires NeverExtends(db, History(Run(Fresh(db, clock), actions).commits), key)
    requires Run(Fresh(db, clock), actions).clock <= now
    ensures var after := Run(Fresh(db, clock), actions).db;
      key in after.entitlements && !InForce(key, after.entitlements[key], now)
  {
    RunsAreSerial(db, clock, Fresh(db, clock), actions);
    RevocationSticks(db, clock, History(Run(Fresh(db, clock), actions).commits), key, now);
  }

  lemma {:induction false} RunKeepsSettled(s: State, actions: seq<Action>, a: Application)
    requires Stored(s.db) && Settled(s.db, a)
    ensures Stored(Run(s, actions).db) && Settled(Run(s, actions).db, a)
    decreases |actions|
  {
    if actions != [] {
      var s' := Next(s, actions[0]);
      if s'.db != s.db {
        var steps := Steps(Transaction(WorkerAt(s, actions[0].worker).d, actions[0].grants, actions[0].times));
        CoverageOnlyWidens(s.db, steps, Key(a));
        SettledStays(s.db, a, steps);
      }
      RunKeepsSettled(s', actions[1..], a);
    }
  }

  predicate DistinctProducts(grants: seq<Grant>) {
    forall i, j :: 0 <= i < j < |grants| ==> grants[i].product != grants[j].product
  }

  /** Committing a package event settles each replay-safe grant that ends with a row, unless that row had no end. */
  lemma CommitSettles(s: State, worker: nat, grants: seq<Grant>, times: seq<int>, k: nat)
    requires WorkerAt(s, worker).Marked? && WorkerAt(s, worker).d.mapping.Mapped?
    requires Next(s, Commit(worker, grants, times)).commits != s.commits
    requires !WorkerAt(s, worker).d.mapping.package.isIgnored && WorkerAt(s, worker).d.mapping.package.isActive
    requires k < |grants| && DistinctProducts(grants) && Stored(s.db)
    requires var a := ApplicationOf(WorkerAt(s, worker).d, grants[k]);
      && Granting(KindOf(a)) && ReplaySafe(a)
      && (Key(a) in s.db.entitlements ==> s.db.entitlements[Key(a)].expiresAt.Some?)
    ensures var a := ApplicationOf(WorkerAt(s, worker).d, grants[k]);
      var after := Next(s, Commit(worker, grants, times)).db;
      Key(a) in after.entitlements ==> Settled(after, a)
  {
    var d := WorkerAt(s, worker).d;
    var a, steps := ApplicationOf(d, grants[k]), Steps(Transaction(d, grants, times));
    PackageSteps(d, grants, times, k);
    if Key(a) in Exec(s.db, steps).entitlements {
      OnlyGrantSettles(s.db, steps, k + 1, a);
    }
  }

  /** The steps of an active package event: one per grant, about different rows. */
  lemma PackageSteps(d: Delivery, grants: seq<Grant>, times: seq<int>, k: nat)
    requires d.mapping.Mapped? && !d.mapping.package.isIgnored && d.mapping.package.isActive
    requires WellTimed(Transaction(d, grants, times)) && k < |grants| && DistinctProducts(grants)
    ensures var steps := Steps(Transaction(d, grants, times));
      && |steps| == |grants| + 1 && steps[k + 1].step == ToGrant(ApplicationOf(d, grants[k]))
      && forall i :: 0 <= i < |steps| && i != k + 1 ==> KeyOf(steps[i].step) != Some(Key(ApplicationOf(d, grants[k])))
  {
    var steps := Steps(Transaction(d, grants, times));
    forall i | 0 <= i < |steps| && i != k + 1
      ensures KeyOf(steps[i].step) != Some(Key(ApplicationOf(d, grants[k])))
    {
      if i > 0 {
        assert steps[i].step == ToGrant(ApplicationOf(d, grants[i - 1]));
        assert grants[i - 1].product != grants[k].product;
      }
    }
  }

  /** The application repeats a replay-safe grant that the tables have settled. */
  ghost predicate Repeats(db: Db, b: Application) {
    exists a :: SameGrant(a, b) && Granting(KindOf(a)) && ReplaySafe(a) && Settled(db, a)
  }

  ghost predicate Redelivery(db: Db, d: Delivery, grants: seq<Grant>) {
    d.mapping.Mapped? && forall i :: 0 <= i < |grants| ==> Repeats(db, ApplicationOf(d, grants[i]))
  }

  ghost predicate NothingNew(db: Db, step: Step) {
    step.Subscribe? || (step.ToGrant? && Repeats(db, step.a))
  }

  lemma {:induction false} SettledStepsDoNothing(db: Db, steps: seq<Timed>)
    requires forall i :: 0 <= i < |steps| ==> NothingNew(db, steps[i].step)
    ensures Exec(db, steps).entitlements == db.entitlements && Exec(db, steps).ledger == db.ledger
    decreases |steps|
  {
    if steps != [] {
      var next := Apply(db, steps[0]);
      assert NothingNew(db, steps[0].step);
      if steps[0].step.ToGrant? {
        var a :| SameGrant(a, steps[0].step.a) && Granting(KindOf(a)) && ReplaySafe(a) && Settled(db, a);
        SettledReplayDoesNothing(db, a, steps[0].step.a, steps[0].now);
      }
      forall i | 0 <= i < |steps[1..]|
        ensures NothingNew(next, steps[1..][i].step)
      {
        assert NothingNew(db, steps[i + 1].step);
        if steps[i + 1].step.ToGrant? {
          var a :| SameGrant(a, steps[i + 1].step.a) && Granting(KindOf(a)) && ReplaySafe(a) && Settled(db, a);
          assert Settled(next, a);
        }
      }
      SettledStepsDoNothing(next, steps[1..]);
    }
  }

  lemma RedeliveredStepsAreKnown(db: Db, d: Delivery, grants: seq<Grant>, times: seq<int>)
    requires Redelivery(db, d, grants)
    ensures forall t :: t in Steps(Transaction(d, grants, times)) ==> NothingNew(db, t.step)
  {
    var steps := Steps(Transaction(d, grants, times));
    forall i | 0 <= i < |steps|
      ensures NothingNew(db, steps[i].step)
    {
      if i > 0 {
        assert steps[i].step == ToGrant(ApplicationOf(d, grants[i - 1]));
        assert Repeats(db, ApplicationOf(d, grants[i - 1]));
      }
    }
  }

  lemma RepeatsStay(s: State, actions: seq<Action>, b: Application)
    requires Stored(s.db) && Repeats(s.db, b)
    ensures Repeats(Run(s, actions).db, b)
  {
    var a :| SameGrant(a, b) && Granting(KindOf(a)) && ReplaySafe(a) && Settled(s.db, a);
    RunKeepsSettled(s, actions, a);
  }

  /** After any run of crashing workers, committing a redelivery changes no entitlement and no ledger row. */
  lemma RedeliveryChangesNoEntitlement(s: State, actions: seq<Action>, worker: nat, grants: seq<Grant>, times: seq<int>)
    requires Stored(s.db)
    requires WorkerAt(Run(s, actions), worker).Marked?
    requires Redelivery(s.db, WorkerAt(Run(s, actions), worker).d, grants)
    ensures var before := Run(s, actions);
      var after := Next(before, Commit(worker, grants, times));
      after.db.entitlements == before.db.entitlements && after.db.ledger == before.db.ledger
  {
    var before := Run(s, actions);
    var d := WorkerAt(before, worker).d;
    forall i | 0 <= i < |grants|
      ensures Repeats(before.db, ApplicationOf(d, grants[i]))
    {
      RepeatsStay(s, actions, ApplicationOf(d, grants[i]));
    }
    var steps := Steps(Transaction(d, grants, times));
    RedeliveredStepsAreKnown(before.db, d, grants, times);
    SettledStepsDoNothing(before.db, steps);
  }

  /** A webhook marked processed is not taken up again. */
  lemma ProcessedIsNotDelivered(s: State, worker: nat, d: Delivery)
    requires d.webhookId in s.webhooks && s.webhooks[d.webhookId] == Processed
    ensures Next(s, Deliver(worker, d)) == s
  {
  }

  /** Receiving, failing and finishing are marked on the delivery's webhook alone; a crash marks nothing. */
  lemma StepsMarkWebhooks(s: State, action: Action)
    ensures var worker, after := WorkerAt(s, action.worker), Next(s, action);
      && (action.MarkReceived? && worker.Unseen? ==> after.webhooks == s.webhooks[worker.d.webhookId := Received])
      && (action.RollBack? && worker.Marked? ==> after.webhooks == s.webhooks[worker.d.webhookId := Failed])
      && (action.Close? && worker.Committed? ==> after.webhooks == s.webhooks[worker.d.webhookId := Processed])
      && (action.Deliver? || action.Commit? || action.Crash? ==> after.webhooks == s.webhooks)
      && (action.Crash? ==> WorkerAt(after, action.worker).Idle? && after.db == s.db)
  {
  }

  /** The tables change only when a worker that has marked its webhook received commits that webhook's transaction. */
  lemma OnlyCommitsChangeTables(s: State, action: Action)
    requires Next(s, action).db != s.db
    ensures action.Commit? && action.worker in s.workers && s.workers[action.worker].Marked?
    ensures Next(s, action).db == Exec(s.db, Stamp(TransactionSteps(s.workers[action.worker].d, action.grants), action.times))
  {
  }

  // ----- One grant of a package, whatever its siblings are -----

  /** The action commits a package event whose grant number `k` exists. */
  predicate Carries(s: State, action: Action, k: nat) {
    && action.Commit? && WorkerAt(s, action.worker).Marked? && WorkerAt(s, action.worker).d.mapping.Mapped?
    && k < |action.grants| && DistinctProducts(action.grants)
  }

  function Carried(s: State, action: Action, k: nat): Application
    requires Carries(s, action, k)
  {
    ApplicationOf(WorkerAt(s, action.worker).d, action.grants[k])
  }

  /** The package is a live one and the commit goes through. */
  predicate Applies(s: State, action: Action, k: nat) {
    && Carries(s, action, k) && Next(s, action).commits != s.commits
    && var package := WorkerAt(s, action.worker).d.mapping.package;
      !package.isIgnored && package.isActive
  }

  /** A transaction that carries a settled grant again leaves that grant's row and its ledger days alone. */
  lemma TransactionLeavesSettledRow(db: Db, d: Delivery, grants: seq<Grant>, times: seq<int>, k: nat, a: Application)
    requires d.mapping.Mapped? && WellTimed(Transaction(d, grants, times)) && k < |grants| && DistinctProducts(grants)
    requires Stored(db) && Granting(KindOf(a)) && ReplaySafe(a) && Settled(db, a) && SameGrant(a, ApplicationOf(d, grants[k]))
    ensures var after := Exec(db, Steps(Transaction(d, grants, times)));
      RowAt(after, Key(a)) == RowAt(db, Key(a)) && LedgerDays(after.ledger, Key(a)) == LedgerDays(db.ledger, Key(a))
  {
    var steps, b := Steps(Transaction(d, grants, times)), ApplicationOf(d, grants[k]);
    assert Key(b) == Key(a);
    if d.mapping.package.isIgnored || !d.mapping.package.isActive {
      OtherSourcesUntouched(db, steps, Key(a));
      OtherSourcesAddNoDays(db, steps, Key(a));
    } else {
      PackageSteps(d, grants, times, k);
      var head, tail := steps[..k + 1], steps[k + 2..];
      var before := Exec(db, head);
      ExecAround(db, steps, k + 1);
      OtherSourcesUntouched(db, head, Key(a));
      OtherSourcesAddNoDays(db, head, Key(a));
      SettledStays(db, a, head);
      SettledReplayDoesNothing(before, a, b, steps[k + 1].now);
      OtherSourcesUntouched(before, tail, Key(a));
      OtherSourcesAddNoDays(before, tail, Key(a));
    }
  }

  /** Once a commit has applied a replay-safe grant, then after any run of crashing workers a commit that carries it
      again leaves its row and its ledger days alone, whatever the package's other grants do. */
  lemma CommittedGrantIsAppliedOnce(s: State, first: Action, k: nat, actions: seq<Action>, second: Action, n: nat)
    requires Stored(s.db) && Applies(s, first, k) && Granting(KindOf(Carried(s, first, k))) && ReplaySafe(Carried(s, first, k))
    requires var key := Key(Carried(s, first, k));
      && (key in s.db.entitlements ==> s.db.entitlements[key].expiresAt.Some?)
      && key in Next(s, first).db.entitlements
    requires Carries(Run(Next(s, first), actions), second, n)
    requires SameGrant(Carried(s, first, k), Carried(Run(Next(s, first), actions), second, n))
    ensures var key := Key(Carried(s, first, k));
      var before := Run(Next(s, first), actions);
      var after := Next(before, second);
      && RowAt(after.db, key) == RowAt(before.db, key)
      && LedgerDays(after.db.ledger, key) == LedgerDays(before.db.ledger, key)
  {
    var a, after := Carried(s, first, k), Next(s, first);
    CommitSettles(s, first.worker, first.grants, first.times, k);
    CommitKeepsStored(s, first, Key(a));
    RunKeepsSettled(after, actions, a);
    var before := Run(after, actions);
    if Next(before, second).commits != before.commits {
      TransactionLeavesSettledRow(before.db, WorkerAt(before, second.worker).d, second.grants, second.times, n, a);
    } else {
      NothingCommitted(before, second);
    }
  }

  lemma CommitKeepsStored(s: State, action: Action, key: Source)
    requires Stored(s.db)
    ensures Stored(Next(s, action).db)
  {
    if Next(s, action).db != s.db {
      CoverageOnlyWidens(s.db, Steps(Transaction(WorkerAt(s, action.worker).d, action.grants, action.times)), key);
    }
  }
}
