/** Machines of a customer, and the limit on how many of them a licence serves. */
module Devices {
  import opened Options
  import opened Moments
  import opened Ranking

  datatype Client = Trader | Nt8 | OtherClient

  /** A device row; its index is its rowid. */
  datatype Device = Device(
    customer: string, fingerprint: string, firstSeen: int, lastSeen: int,
    firstLicensed: Option<int>, lastLicensed: Option<int>, blocked: bool,
    appVersion: Option<string>, client: Client)

  /** A licence check: who asks, from which machine, under which limit, and whether any grant is licensed. */
  datatype Check = Check(
    customer: string, fingerprint: string, appVersion: Option<string>, client: Client,
    maxDevices: nat, licensed: bool, now: int)

  datatype Answer = Active | DeviceBlocked | LimitExceeded | NotLicensed

  /** The customer's own limit if set, else the default; never less than one machine. */
  function EffectiveMax(customerOverride: Option<int>, defaultMax: int): (max: nat)
    ensures 1 <= max && customerOverride.GetOr(defaultMax) <= max
    ensures max == 1 || Some(max) == customerOverride || (customerOverride.None? && max == defaultMax)
  {
    var limit := customerOverride.GetOr(defaultMax);
    if limit < 1 then 1 else limit
  }

  // ----- Which machines count -----

  predicate IsCounted(devices: seq<Device>, customer: string, i: nat) {
    i < |devices| && devices[i].customer == customer && !devices[i].blocked && devices[i].firstLicensed.Some?
  }

  function Counted(devices: seq<Device>, customer: string): set<nat> {
    set i | 0 <= i < |devices| && IsCounted(devices, customer, i)
  }

  /** Licensed earlier, then seen earlier, then inserted earlier. */
  predicate Precedes(devices: seq<Device>, i: nat, j: nat) {
    && i < |devices| && j < |devices| && devices[i].firstLicensed.Some? && devices[j].firstLicensed.Some?
    && var x, y := devices[i].firstLicensed.value, devices[j].firstLicensed.value;
      x < y || (x == y && (devices[i].firstSeen < devices[j].firstSeen || (devices[i].firstSeen == devices[j].firstSeen && i < j)))
  }

  function Order(devices: seq<Device>): (nat, nat) -> bool {
    (i: nat, j: nat) => Precedes(devices, i, j)
  }

  /** The first `limit` counted machines. */
  function Allowed(devices: seq<Device>, customer: string, limit: nat): set<nat> {
    First(Counted(devices, customer), Order(devices), limit)
  }

  lemma CountedAreOrdered(devices: seq<Device>, customer: string)
    ensures Orders(Order(devices), Counted(devices, customer))
  {
  }

  lemma SmallerLimitIsNested(devices: seq<Device>, customer: string, smaller: nat, limit: nat)
    requires smaller <= limit
    ensures Allowed(devices, customer, smaller) <= Allowed(devices, customer, limit) <= Counted(devices, customer)
  {
    FirstIsNested(Counted(devices, customer), Order(devices), smaller, limit);
  }

  /** The first `limit` machines are `limit` of them, or all of them when there are not that many. */
  lemma AllowedSize(devices: seq<Device>, customer: string, limit: nat)
    ensures var counted := Counted(devices, customer);
      |Allowed(devices, customer, limit)| == if limit <= |counted| then limit else |counted|
    ensures limit >= |Counted(devices, customer)| ==> Allowed(devices, customer, limit) == Counted(devices, customer)
  {
    CountedAreOrdered(devices, customer);
    FirstSize(Counted(devices, customer), Order(devices), limit);
  }

  // ----- One check -----

  predicate Matches(device: Device, customer: string, fingerprint: string) {
    device.customer == customer && device.fingerprint == fingerprint
  }

  predicate Knows(devices: seq<Device>, customer: string, fingerprint: string) {
    exists i :: 0 <= i < |devices| && Matches(devices[i], customer, fingerprint)
  }

  /** The unique key of the device table. */
  predicate UniqueMachines(devices: seq<Device>) {
    forall i, j :: 0 <= i < j < |devices| ==> !Matches(devices[j], devices[i].customer, devices[i].fingerprint)
  }

  function IndexOf(devices: seq<Device>, customer: string, fingerprint: string): (i: nat)
    requires Knows(devices, customer, fingerprint)
    ensures i < |devices| && Matches(devices[i], customer, fingerprint)
    ensures forall j :: 0 <= j < i ==> !Matches(devices[j], customer, fingerprint)
  {
    if Matches(devices[0], customer, fingerprint) then 0 else 1 + IndexOf(devices[1..], customer, fingerprint)
  }

  /** The device table after the machine reports in. */
  function Seen(devices: seq<Device>, check: Check): (after: seq<Device>)
    ensures Knows(after, check.customer, check.fingerprint)
  {
    if Knows(devices, check.customer, check.fingerprint) then
      var i := IndexOf(devices, check.customer, check.fingerprint);
      var device := devices[i].(lastSeen := Iso(check.now), appVersion := check.appVersion.Or(devices[i].appVersion), client := check.client);
      assert Matches(devices[i := device][i], check.customer, check.fingerprint);
      devices[i := device]
    else
      var device := Device(check.customer, check.fingerprint, Iso(check.now), Iso(check.now), None, None, false, check.appVersion, check.client);
      assert Matches((devices + [device])[|devices|], check.customer, check.fingerprint);
      devices + [device]
  }

  function Marked(devices: seq<Device>, i: nat, now: int): seq<Device>
    requires i < |devices|
  {
    devices[i := devices[i].(firstLicensed := devices[i].firstLicensed.Or(Some(Iso(now))), lastLicensed := Some(Iso(now)))]
  }

  predicate OverLimit(devices: seq<Device>, customer: string, i: nat, limit: nat) {
    if i in Counted(devices, customer) then i !in Allowed(devices, customer, limit)
    else |Counted(devices, customer)| >= limit
  }

  function AnswerTo(devices: seq<Device>, check: Check): Answer {
    var seen := Seen(devices, check);
    var i := IndexOf(seen, check.customer, check.fingerprint);
    if seen[i].blocked then DeviceBlocked
    else if !check.licensed then NotLicensed
    else if OverLimit(seen, check.customer, i, check.maxDevices) then LimitExceeded
    else Active
  }

  function AfterCheck(devices: seq<Device>, check: Check): seq<Device> {
    var seen := Seen(devices, check);
    if AnswerTo(devices, check) == Active then Marked(seen, IndexOf(seen, check.customer, check.fingerprint), check.now)
    else seen
  }

  function AfterChecks(devices: seq<Device>, checks: seq<Check>): seq<Device>
    decreases |checks|
  {
    if checks == [] then devices else AfterChecks(AfterCheck(devices, checks[0]), checks[1..])
  }

  /** The machines of one customer that a run answers "active". */
  function Served(devices: seq<Device>, checks: seq<Check>, customer: string): set<string>
    decreases |checks|
  {
    if checks == [] then {}
    else
      (if checks[0].customer == customer && AnswerTo(devices, checks[0]) == Active then {checks[0].fingerprint} else {})
      + Served(AfterCheck(devices, checks[0]), checks[1..], customer)
  }

  function Fingerprints(devices: seq<Device>, some: set<nat>): set<string>
    requires forall i :: i in some ==> i < |devices|
  {
    set i | i in some :: devices[i].fingerprint
  }

  lemma {:induction false} FingerprintsSize(devices: seq<Device>, some: set<nat>)
    requires forall i :: i in some ==> i < |devices|
    ensures |Fingerprints(devices, some)| <= |some|
    decreases some
  {
    if some == {} {
      assert Fingerprints(devices, some) == {};
    } else {
      var i :| i in some;
      FingerprintsSize(devices, some - {i});
      assert Fingerprints(devices, some) == Fingerprints(devices, some - {i}) + {devices[i].fingerprint};
    }
  }

  /** Machines keep their place, and a machine once counted keeps counting with the same times. */
  ghost predicate Continues(before: seq<Device>, after: seq<Device>) {
    |before| <= |after| && forall i :: 0 <= i < |before| ==>
      && after[i].customer == before[i].customer && after[i].fingerprint == before[i].fingerprint
      && after[i].firstSeen == before[i].firstSeen && after[i].blocked == before[i].blocked
      && (before[i].firstLicensed.Some? ==> after[i].firstLicensed == before[i].firstLicensed)
  }

  /** Tables that count the same machines in the same order allow the same ones. */
  lemma SameCountSameAllowed(before: seq<Device>, after: seq<Device>, customer: string)
    requires Counted(after, customer) == Counted(before, customer) && Continues(before, after)
    ensures forall limit: nat :: Allowed(after, customer, limit) == Allowed(before, customer, limit)
  {
    forall limit: nat
      ensures Allowed(after, customer, limit) == Allowed(before, customer, limit)
    {
      SameOrderSameFirst(Counted(before, customer), Order(before), Order(after), limit);
    }
  }

  lemma SeenKeepsCounting(devices: seq<Device>, check: Check, customer: string)
    ensures Continues(devices, Seen(devices, check))
    ensures Counted(Seen(devices, check), customer) == Counted(devices, customer)
    ensures forall limit: nat :: Allowed(Seen(devices, check), customer, limit) == Allowed(devices, customer, limit)
  {
    SameCountSameAllowed(devices, Seen(devices, check), customer);
  }

  lemma MarkingAgainChangesNoCount(devices: seq<Device>, i: nat, now: int, customer: string)
    requires i < |devices| && devices[i].firstLicensed.Some?
    ensures Counted(Marked(devices, i, now), customer) == Counted(devices, customer)
    ensures forall limit: nat :: Allowed(Marked(devices, i, now), customer, limit) == Allowed(devices, customer, limit)
  {
    SameCountSameAllowed(devices, Marked(devices, i, now), customer);
  }

  lemma MarkingAnewAddsOne(devices: seq<Device>, i: nat, now: int, customer: string)
    requires i < |devices| && devices[i].firstLicensed.None? && !devices[i].blocked
    ensures Counted(Marked(devices, i, now), customer) ==
      Counted(devices, customer) + if devices[i].customer == customer then {i} else {}
    ensures devices[i].customer != customer ==>
      forall limit: nat :: Allowed(Marked(devices, i, now), customer, limit) == Allowed(devices, customer, limit)
  {
    if devices[i].customer != customer {
      SameCountSameAllowed(devices, Marked(devices, i, now), customer);
    }
  }

  /** One check keeps the allowed machines, and an "active" answer goes to one of them. */
  lemma CheckKeepsAllowed(devices: seq<Device>, check: Check, customer: string, limit: nat)
    requires check.customer == customer ==> check.maxDevices <= limit
    ensures Continues(devices, AfterCheck(devices, check))
    ensures Allowed(devices, customer, limit) <= Allowed(AfterCheck(devices, check), customer, limit)
    ensures check.customer == customer && AnswerTo(devices, check) == Active ==>
      exists i :: i in Allowed(AfterCheck(devices, check), customer, limit)
        && AfterCheck(devices, check)[i].fingerprint == check.fingerprint
  {
    var seen := Seen(devices, check);
    SeenKeepsCounting(devices, check, customer);
    if AnswerTo(devices, check) == Active {
      var i := IndexOf(seen, check.customer, check.fingerprint);
      var after := AfterCheck(devices, check);
      AllowedSize(seen, customer, limit);
      AllowedSize(after, customer, limit);
      if seen[i].firstLicensed.Some? {
        MarkingAgainChangesNoCount(seen, i, check.now, customer);
      } else {
        MarkingAnewAddsOne(seen, i, check.now, customer);
        if check.customer == customer {
          assert |Counted(after, customer)| <= limit;
          assert Allowed(after, customer, limit) == Counted(after, customer);
        }
      }
      if check.customer == customer {
        assert i in Allowed(after, customer, limit) && after[i].fingerprint == check.fingerprint;
      }
    }
  }

  lemma {:induction false} ServedAreAllowed(devices: seq<Device>, checks: seq<Check>, customer: string, limit: nat)
    requires forall k :: 0 <= k < |checks| && checks[k].customer == customer ==> checks[k].maxDevices <= limit
    ensures Continues(devices, AfterChecks(devices, checks))
    ensures Allowed(devices, customer, limit) <= Allowed(AfterChecks(devices, checks), customer, limit)
    ensures Served(devices, checks, customer) <=
      Fingerprints(AfterChecks(devices, checks), Allowed(AfterChecks(devices, checks), customer, limit))
    decreases |checks|
  {
    if checks != [] {
      var next := AfterCheck(devices, checks[0]);
      CheckKeepsAllowed(devices, checks[0], customer, limit);
      ServedAreAllowed(next, checks[1..], customer, limit);
      var last := AfterChecks(devices, checks);
      if checks[0].customer == customer && AnswerTo(devices, checks[0]) == Active {
        var i :| i in Allowed(next, customer, limit) && next[i].fingerprint == checks[0].fingerprint;
        assert i in Allowed(last, customer, limit) && last[i].fingerprint == checks[0].fingerprint;
      }
    }
  }

  /** From any table, any interleaving of checks serves a customer at most as many machines as the largest limit used. */
  lemma AtMostLimitMachinesServed(devices: seq<Device>, checks: seq<Check>, customer: string, limit: nat)
    requires forall k :: 0 <= k < |checks| && checks[k].customer == customer ==> checks[k].maxDevices <= limit
    ensures |Served(devices, checks, customer)| <= limit
  {
    ServedAreAllowed(devices, checks, customer, limit);
    var last := AfterChecks(devices, checks);
    var allowed := Allowed(last, customer, limit);
    AllowedSize(last, customer, limit);
    FingerprintsSize(last, allowed);
    SubsetSize(Served(devices, checks, customer), Fingerprints(last, allowed));
  }

  lemma SameMachinesStayUnique(before: seq<Device>, after: seq<Device>)
    requires UniqueMachines(before) && |after| == |before|
    requires forall i :: 0 <= i < |before| ==> Matches(after[i], before[i].customer, before[i].fingerprint)
    ensures UniqueMachines(after)
  {
  }

  lemma SeenStaysUnique(devices: seq<Device>, check: Check)
    requires UniqueMachines(devices)
    ensures UniqueMachines(Seen(devices, check))
  {
    var seen := Seen(devices, check);
    if Knows(devices, check.customer, check.fingerprint) {
      SameMachinesStayUnique(devices, seen);
    } else {
      forall i | 0 <= i < |devices|
        ensures !Matches(seen[|devices|], devices[i].customer, devices[i].fingerprint)
      {
        assert !Matches(devices[i], check.customer, check.fingerprint);
      }
    }
  }

  lemma {:induction false} ChecksKeepMachinesUnique(devices: seq<Device>, checks: seq<Check>)
    requires UniqueMachines(devices)
    ensures UniqueMachines(AfterChecks(devices, checks))
    decreases |checks|
  {
    if checks != [] {
      SeenStaysUnique(devices, checks[0]);
      SameMachinesStayUnique(Seen(devices, checks[0]), AfterCheck(devices, checks[0]));
      ChecksKeepMachinesUnique(AfterCheck(devices, checks[0]), checks[1..]);
    }
  }

  lemma AllowedMachineIsActive(devices: seq<Device>, check: Check, i: nat)
    requires UniqueMachines(devices) && check.licensed
    requires i in Allowed(devices, check.customer, check.maxDevices) && devices[i].fingerprint == check.fingerprint
    ensures AnswerTo(devices, check) == Active
  {
    SeenKeepsCounting(devices, check, check.customer);
    assert Matches(devices[i], check.customer, check.fingerprint);
    assert IndexOf(devices, check.customer, check.fingerprint) == i;
    assert Matches(Seen(devices, check)[i], check.customer, check.fingerprint);
    assert IndexOf(Seen(devices, check), check.customer, check.fingerprint) == i;
  }

  /** A machine answered "active" stays welcome: no run of checks under limits no larger displaces it. */
  lemma ActiveMachineIsNeverDisplaced(devices: seq<Device>, first: Check, between: seq<Check>, again: Check)
    requires UniqueMachines(devices) && AnswerTo(devices, first) == Active
    requires again.customer == first.customer && again.fingerprint == first.fingerprint
    requires again.maxDevices == first.maxDevices && again.licensed
    requires forall k :: 0 <= k < |between| && between[k].customer == first.customer ==> between[k].maxDevices <= first.maxDevices
    ensures AnswerTo(AfterChecks(devices, [first] + between), again) == Active
  {
    var customer, limit, next := first.customer, first.maxDevices, AfterCheck(devices, first);
    var checks := [first] + between;
    assert checks[1..] == between;
    CheckKeepsAllowed(devices, first, customer, limit);
    ServedAreAllowed(next, between, customer, limit);
    ChecksKeepMachinesUnique(devices, checks);
    var i :| i in Allowed(next, customer, limit) && next[i].fingerprint == first.fingerprint;
    AllowedMachineIsActive(AfterChecks(next, between), again, i);
  }

  // ----- Which machines, by their columns -----

  /** Machine `i` was licensed before machine `j`; at the same time, seen before it; at the same time too, inserted before. */
  predicate IsEarlier(devices: seq<Device>, i: nat, j: nat)
    requires i < |devices| && j < |devices| && devices[i].firstLicensed.Some? && devices[j].firstLicensed.Some?
  {
    if devices[i].firstLicensed.value != devices[j].firstLicensed.value then
      devices[i].firstLicensed.value < devices[j].firstLicensed.value
    else if devices[i].firstSeen != devices[j].firstSeen then devices[i].firstSeen < devices[j].firstSeen
    else i < j
  }

  /** The customer's unblocked machines that have been licensed. */
  function LicensedMachines(devices: seq<Device>, customer: string): set<nat> {
    set i | 0 <= i < |devices| && devices[i].customer == customer && !devices[i].blocked && devices[i].firstLicensed.Some?
  }

  /** Those of them licensed before machine `i`. */
  function EarlierMachines(devices: seq<Device>, customer: string, i: nat): set<nat>
    requires i < |devices| && devices[i].firstLicensed.Some?
  {
    set j | 0 <= j < |devices| && devices[j].customer == customer && !devices[j].blocked && devices[j].firstLicensed.Some?
      && IsEarlier(devices, j, i)
  }

  /** If a machine is allowed, so is every machine licensed before it; a lowered limit keeps the earliest ones. */
  lemma EarlierMachinesAreAllowed(devices: seq<Device>, customer: string, limit: nat, i: nat, j: nat)
    requires j in Allowed(devices, customer, limit)
    requires i in LicensedMachines(devices, customer) && j < |devices| && devices[j].firstLicensed.Some? && IsEarlier(devices, i, j)
    ensures i in Allowed(devices, customer, limit)
  {
    CountedAreOrdered(devices, customer);
    if i !in Allowed(devices, customer, limit) {
      FirstPrecedeRest(Counted(devices, customer), Order(devices), limit, j, i);
    }
  }

  /** A machine is allowed exactly when fewer than `limit` of the customer's machines were licensed before it. */
  lemma AllowedByRank(devices: seq<Device>, customer: string, limit: nat, i: nat)
    requires i in LicensedMachines(devices, customer)
    ensures i in Allowed(devices, customer, limit) <==> |EarlierMachines(devices, customer, i)| < limit
  {
    assert EarlierMachines(devices, customer, i) == Ahead(Counted(devices, customer), Order(devices), i);
  }

  /** Under a licence, a machine licensed before is answered active exactly when fewer than the limit were licensed before
      it, so that a lowered limit serves the earliest machines and no others. */
  lemma LicensedMachineAnswer(devices: seq<Device>, check: Check, i: nat)
    requires UniqueMachines(devices) && i in LicensedMachines(devices, check.customer) && devices[i].fingerprint == check.fingerprint
    ensures AnswerTo(devices, check) ==
      if !check.licensed then NotLicensed
      else if |EarlierMachines(devices, check.customer, i)| < check.maxDevices then Active
      else LimitExceeded
  {
    SeenKeepsCounting(devices, check, check.customer);
    AllowedByRank(devices, check.customer, check.maxDevices, i);
    FoundAt(devices, check, i);
  }

  lemma FoundAt(devices: seq<Device>, check: Check, i: nat)
    requires UniqueMachines(devices) && i < |devices| && Matches(devices[i], check.customer, check.fingerprint)
    ensures Knows(devices, check.customer, check.fingerprint) && IndexOf(devices, check.customer, check.fingerprint) == i
    ensures |Seen(devices, check)| == |devices| && Seen(devices, check)[i].blocked == devices[i].blocked
    ensures IndexOf(Seen(devices, check), check.customer, check.fingerprint) == i
  {
    assert Matches(Seen(devices, check)[i], check.customer, check.fingerprint);
  }

  /** A blocked machine is refused as blocked; an unblocked one never licensed needs room among the licensed ones. */
  lemma OtherMachineAnswer(devices: seq<Device>, check: Check, i: nat)
    requires UniqueMachines(devices) && i < |devices| && Matches(devices[i], check.customer, check.fingerprint)
    ensures devices[i].blocked ==> AnswerTo(devices, check) == DeviceBlocked
    ensures !devices[i].blocked && devices[i].firstLicensed.None? ==>
      AnswerTo(devices, check) == NewcomerAnswer(devices, check)
  {
    SeenKeepsCounting(devices, check, check.customer);
    assert Counted(devices, check.customer) == LicensedMachines(devices, check.customer);
    FoundAt(devices, check, i);
  }

  function NewcomerAnswer(devices: seq<Device>, check: Check): Answer {
    if !check.licensed then NotLicensed
    else if |LicensedMachines(devices, check.customer)| < check.maxDevices then Active
    else LimitExceeded
  }

  /** An unknown machine needs room too. */
  lemma UnknownMachineAnswer(devices: seq<Device>, check: Check)
    requires !Knows(devices, check.customer, check.fingerprint)
    ensures AnswerTo(devices, check) == NewcomerAnswer(devices, check)
  {
    SeenKeepsCounting(devices, check, check.customer);
    assert Counted(devices, check.customer) == LicensedMachines(devices, check.customer);
    assert forall k :: 0 <= k < |devices| ==> !Matches(devices[k], check.customer, check.fingerprint);
  }
}
