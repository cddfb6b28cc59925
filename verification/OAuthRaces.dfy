/** OAuth requests whose status reads and status writes are separate steps of the database. */
module OAuthRaces {
  import opened Options
  import opened OAuthSessions

  /** A record as a request read it, not yet acted on. */
  datatype Reading = Reading(state: string, seen: Login)

  datatype Table = Table(logins: Logins, readings: map<nat, Reading>)

  /** A write names the request whose reading licenses it. `WriteColumns` stands for the writes of a claim or a refresh,
      which leave status and owner alone. `Begin` takes the write lock before it looks at any status. */
  datatype Move =
    | Read(request: nat, state: string)
    | WriteExpired(request: nat, now: int)
    | WriteToken(request: nat, grant: Grant, random: Random, now: int)
    | WriteFailed(state: string, now: int)
    | WriteColumns(state: string, after: Login)
    | Begin(state: string, customer: string, device: string, environment: string, stateSeconds: int, now: int)

  /** The write is licensed by its request's reading of this record, and the record is still there. */
  predicate Lands(t: Table, move: Move, state: string) {
    && (move.WriteExpired? || move.WriteToken?) && move.request in t.readings && t.readings[move.request].state == state
    && state in t.logins
    && var seen := t.readings[move.request].seen;
      if move.WriteExpired? then Overdue(seen, move.now) else seen.status == Pending && move.grant.accessToken != ""
  }

  /** The reading decides whether a write happens; the write itself looks at no status. A request writes a status once. */
  function Next(vault: Vault, t: Table, move: Move): Table {
    match move
    case Read(request, state) =>
      if state in t.logins then t.(readings := t.readings[request := Reading(state, t.logins[state])])
      else t.(readings := t.readings - {request})
    case WriteExpired(request, now) =>
      if request !in t.readings || !Lands(t, move, t.readings[request].state) then t
      else
        var state := t.readings[request].state;
        Table(t.logins[state := WithExpiry(t.logins[state], now)], t.readings - {request})
    case WriteToken(request, grant, random, now) =>
      if request !in t.readings || !Lands(t, move, t.readings[request].state) then t
      else
        var state := t.readings[request].state;
        Table(t.logins[state := WithToken(vault, t.logins[state], grant, random, now)], t.readings - {request})
    case WriteFailed(state, now) => t.(logins := Fail(t.logins, state, now))
    case WriteColumns(state, after) =>
      if state !in t.logins then t
      else
        var l := t.logins[state];
        t.(logins := t.logins[state := after.(status := l.status, customer := l.customer, device := l.device, createdAt := l.createdAt)])
    case Begin(state, customer, device, environment, stateSeconds, now) =>
      t.(logins := Start(t.logins, state, customer, device, environment, stateSeconds, now))
  }

  function Run(vault: Vault, t: Table, moves: seq<Move>): Table {
    if moves == [] then t else Next(vault, Run(vault, t, moves[..|moves| - 1]), moves[|moves| - 1])
  }

  /** The table before move `i`. */
  function At(vault: Vault, t: Table, moves: seq<Move>, i: nat): Table
    requires i <= |moves|
  {
    Run(vault, t, moves[..i])
  }

  lemma AtNext(vault: Vault, t: Table, moves: seq<Move>, i: nat)
    requires i < |moves|
    ensures At(vault, t, moves, i + 1) == Next(vault, At(vault, t, moves, i), moves[i])
  {
    assert moves[..i + 1][..i] == moves[..i];
  }

  // ----- One move -----

  predicate FailLands(t: Table, move: Move, state: string) {
    move.WriteFailed? && move.state == state && state in t.logins
  }

  /** The record is marked expired, by a request or by the clean-up before a new login. */
  predicate ExpiryLands(vault: Vault, t: Table, move: Move, state: string) {
    || (move.WriteExpired? && Lands(t, move, state))
    || (move.Begin? && state in t.logins && t.logins[state].status == Pending
        && state in Next(vault, t, move).logins && Next(vault, t, move).logins[state].status == Expired)
  }

  /** The move lowers the status of the record. */
  predicate Lowers(vault: Vault, t: Table, move: Move, state: string) {
    && state in t.logins && state in Next(vault, t, move).logins
    && Rank(Next(vault, t, move).logins[state].status) < Rank(t.logins[state].status)
  }

  /** A move lowers a status exactly when an expiry lands on a failed record, or a token on an expired or failed one. */
  lemma WhatLowers(vault: Vault, t: Table, move: Move, state: string)
    requires !(move.Begin? && move.state == state)
    ensures Lowers(vault, t, move, state) <==>
      (Lands(t, move, state) && (t.logins[state].status == Failed || (move.WriteToken? && t.logins[state].status == Expired)))
    ensures FailLands(t, move, state) ==> Next(vault, t, move).logins[state].status == Failed
    ensures ExpiryLands(vault, t, move, state) ==> Next(vault, t, move).logins[state].status == Expired
    ensures state in Next(vault, t, move).logins ==> state in t.logins
  {
  }

  /** Only a failure makes a record failed, and only an expiry makes it expired. */
  lemma WhatChanges(vault: Vault, t: Table, move: Move, state: string)
    requires state in t.logins && state in Next(vault, t, move).logins && !(move.Begin? && move.state == state)
    ensures var before, after := t.logins[state].status, Next(vault, t, move).logins[state].status;
      && (after == Failed && before != Failed ==> FailLands(t, move, state))
      && (after == Expired && before != Expired ==> ExpiryLands(vault, t, move, state))
      && (move.Read? ==> after == before)
  {
  }

  // ----- Runs -----

  predicate Restarts(moves: seq<Move>, state: string) {
    exists i :: 0 <= i < |moves| && moves[i].Begin? && moves[i].state == state
  }

  predicate NeverGoesDown(vault: Vault, t: Table, moves: seq<Move>, state: string) {
    forall j :: 0 <= j < |moves| ==> !Lowers(vault, At(vault, t, moves, j), moves[j], state)
  }

  /** Move `i` is the reading that licenses the write at `j`. */
  predicate ReadThenWrite(vault: Vault, t: Table, moves: seq<Move>, state: string, i: nat, j: nat) {
    && i < j < |moves| && Lands(At(vault, t, moves, j), moves[j], state)
    && moves[i] == Read(moves[j].request, state)
    && forall k :: i < k < j ==> !(moves[k].Read? && moves[k].request == moves[j].request)
  }

  /** A failure lands between a reading and the write it licenses, or an expiry between a token's reading and its write. */
  predicate Overtakes(vault: Vault, t: Table, moves: seq<Move>, state: string, i: nat, k: nat, j: nat) {
    && i < k < j && ReadThenWrite(vault, t, moves, state, i, j)
    && (FailLands(At(vault, t, moves, k), moves[k], state)
        || (moves[j].WriteToken? && ExpiryLands(vault, At(vault, t, moves, k), moves[k], state)))
  }

  ghost predicate Overtaken(vault: Vault, t: Table, moves: seq<Move>, state: string) {
    exists i: nat, k: nat, j: nat :: Overtakes(vault, t, moves, state, i, k, j)
  }

  /** A record present now was present all along. */
  lemma {:induction false} PresentBefore(vault: Vault, t: Table, moves: seq<Move>, state: string, k: nat, j: nat)
    requires k <= j <= |moves| && !Restarts(moves, state) && state in At(vault, t, moves, j).logins
    ensures state in At(vault, t, moves, k).logins
    decreases j
  {
    if k < j {
      AtNext(vault, t, moves, j - 1);
      WhatLowers(vault, At(vault, t, moves, j - 1), moves[j - 1], state);
      PresentBefore(vault, t, moves, state, k, j - 1);
    }
  }

  lemma {:induction false} RanksRise(vault: Vault, t: Table, moves: seq<Move>, state: string, k: nat, j: nat)
    requires k <= j <= |moves| && !Restarts(moves, state) && state in At(vault, t, moves, j).logins
    requires NeverGoesDown(vault, t, moves, state)
    ensures state in At(vault, t, moves, k).logins
    ensures Rank(At(vault, t, moves, k).logins[state].status) <= Rank(At(vault, t, moves, j).logins[state].status)
    decreases j
  {
    if k < j {
      AtNext(vault, t, moves, j - 1);
      PresentBefore(vault, t, moves, state, j - 1, j);
      assert !Lowers(vault, At(vault, t, moves, j - 1), moves[j - 1], state);
      RanksRise(vault, t, moves, state, k, j - 1);
    }
  }

  /** A reading in hand was taken by some earlier move, from the record as it was then, and is the request's latest. */
  lemma {:induction false} ReadingHasOrigin(vault: Vault, t: Table, moves: seq<Move>, j: nat, request: nat) returns (i: nat)
    requires j <= |moves| && t.readings == map[] && request in At(vault, t, moves, j).readings
    ensures i < j && var reading := At(vault, t, moves, j).readings[request];
      && moves[i] == Read(request, reading.state)
      && reading.state in At(vault, t, moves, i).logins && reading.seen == At(vault, t, moves, i).logins[reading.state]
    ensures forall k :: i < k < j ==> !(moves[k].Read? && moves[k].request == request)
    decreases j
  {
    AtNext(vault, t, moves, j - 1);
    if moves[j - 1].Read? && moves[j - 1].request == request {
      i := j - 1;
    } else {
      i := ReadingHasOrigin(vault, t, moves, j - 1, request);
    }
  }

  /** A record that came to have this status since move `k` got it by a failure or an expiry in between. */
  lemma {:induction false} StatusHasCause(vault: Vault, t: Table, moves: seq<Move>, state: string, k: nat, j: nat) returns (c: nat)
    requires k <= j <= |moves| && !Restarts(moves, state) && state in At(vault, t, moves, j).logins
    requires state in At(vault, t, moves, k).logins
    requires var status := At(vault, t, moves, j).logins[state].status;
      status in {Failed, Expired} && At(vault, t, moves, k).logins[state].status != status
    ensures k <= c < j
    ensures if At(vault, t, moves, j).logins[state].status == Failed then FailLands(At(vault, t, moves, c), moves[c], state)
            else ExpiryLands(vault, At(vault, t, moves, c), moves[c], state)
    decreases j
  {
    AtNext(vault, t, moves, j - 1);
    PresentBefore(vault, t, moves, state, j - 1, j);
    WhatChanges(vault, At(vault, t, moves, j - 1), moves[j - 1], state);
    if At(vault, t, moves, j - 1).logins[state].status == At(vault, t, moves, j).logins[state].status {
      c := StatusHasCause(vault, t, moves, state, k, j - 1);
    } else {
      c := j - 1;
    }
  }

  predicate HasStatus(t: Table, state: string, status: Status) {
    state in t.logins && t.logins[state].status == status
  }

  /** The move at `k` makes the record failed, or at least expired. */
  lemma OvertakerShows(vault: Vault, t: Table, moves: seq<Move>, state: string, i: nat, k: nat, j: nat)
    requires !Restarts(moves, state) && Overtakes(vault, t, moves, state, i, k, j)
    ensures HasStatus(At(vault, t, moves, k + 1), state, Failed)
         || (moves[j].WriteToken? && HasStatus(At(vault, t, moves, k + 1), state, Expired))
  {
    AtNext(vault, t, moves, k);
    WhatLowers(vault, At(vault, t, moves, k), moves[k], state);
    PresentBefore(vault, t, moves, state, k + 1, j);
  }

  lemma OvertakingLowers(vault: Vault, t: Table, moves: seq<Move>, state: string, i: nat, k: nat, j: nat)
    requires !Restarts(moves, state) && Overtakes(vault, t, moves, state, i, k, j)
    ensures !NeverGoesDown(vault, t, moves, state)
  {
    if NeverGoesDown(vault, t, moves, state) {
      OvertakerShows(vault, t, moves, state, i, k, j);
      RanksRise(vault, t, moves, state, k + 1, j);
      WhatLowers(vault, At(vault, t, moves, j), moves[j], state);
    }
  }

  lemma LoweringIsOvertaken(vault: Vault, t: Table, moves: seq<Move>, state: string, j: nat)
    requires t.readings == map[] && !Restarts(moves, state) && j < |moves|
    requires Lowers(vault, At(vault, t, moves, j), moves[j], state)
    ensures Overtaken(vault, t, moves, state)
  {
    WhatLowers(vault, At(vault, t, moves, j), moves[j], state);
    var i := ReadingHasOrigin(vault, t, moves, j, moves[j].request);
    assert ReadThenWrite(vault, t, moves, state, i, j);
    var c := StatusHasCause(vault, t, moves, state, i, j);
    WhatChanges(vault, At(vault, t, moves, i), moves[i], state);
    assert c != i;
    assert Overtakes(vault, t, moves, state, i, c, j);
  }

  /** Whatever the interleaving, a login's status never goes down exactly when no failure lands between a reading and the
      write it licenses, and no expiry between a token's reading and its write. */
  lemma StatusGoesDownOnlyWhenOvertaken(vault: Vault, t: Table, moves: seq<Move>, state: string)
    requires t.readings == map[] && !Restarts(moves, state)
    ensures NeverGoesDown(vault, t, moves, state) <==> !Overtaken(vault, t, moves, state)
  {
    if i: nat, k: nat, j: nat :| Overtakes(vault, t, moves, state, i, k, j) {
      OvertakingLowers(vault, t, moves, state, i, k, j);
    }
    if j: nat :| j < |moves| && Lowers(vault, At(vault, t, moves, j), moves[j], state) {
      LoweringIsOvertaken(vault, t, moves, state, j);
    }
  }

  // ----- The failing runs, and the atomic steps -----

  lemma RunOfThree(vault: Vault, t: Table, a: Move, b: Move, c: Move)
    ensures Run(vault, t, [a, b]) == Next(vault, Next(vault, t, a), b)
    ensures Run(vault, t, [a, b, c]) == Next(vault, Next(vault, Next(vault, t, a), b), c)
  {
    assert [a, b, c][..2] == [a, b] && [a, b][..1] == [a] && [a][..0] == [];
    assert Run(vault, t, [a]) == Next(vault, t, a);
  }

  /** A failure between reading an overdue login and marking it expired leaves it expired, not failed; a failure between
      reading a pending login and storing its token leaves it authorized. */
  lemma OvertakenWritesUndoFailures(vault: Vault, t: Table, request: nat, state: string, grant: Grant, random: Random, now: int)
    requires state in t.logins
    ensures HasStatus(Run(vault, t, [Read(request, state), WriteFailed(state, now)]), state, Failed)
    ensures Overdue(t.logins[state], now) ==>
      HasStatus(Run(vault, t, [Read(request, state), WriteFailed(state, now), WriteExpired(request, now)]), state, Expired)
    ensures t.logins[state].status == Pending && grant.accessToken != "" ==>
      HasStatus(Run(vault, t, [Read(request, state), WriteFailed(state, now), WriteToken(request, grant, random, now)]), state, Authorized)
  {
    RunOfThree(vault, t, Read(request, state), WriteFailed(state, now), WriteExpired(request, now));
    RunOfThree(vault, t, Read(request, state), WriteFailed(state, now), WriteToken(request, grant, random, now));
  }

  /** With nothing in between, a reading and its writes are the atomic callback and authorization. */
  lemma UndisturbedMovesAreAtomic(vault: Vault, t: Table, request: nat, state: string, grant: Grant, random: Random, now: int)
    requires state in t.logins
    ensures Run(vault, t, [Read(request, state), WriteExpired(request, now)]).logins == Callback(t.logins, state, now)
    ensures grant.accessToken != "" ==>
      Run(vault, t, [Read(request, state), WriteExpired(request, now), WriteToken(request, grant, random, now)]).logins
      == Authorize(vault, t.logins, state, grant, random, now)
  {
    RunOfThree(vault, t, Read(request, state), WriteExpired(request, now), WriteToken(request, grant, random, now));
    assert t.logins[state := t.logins[state]] == t.logins;
  }
}
