/** The OAuth login records: every status change, token read and session handle over all interleavings. */
module OAuthSessions {
  import opened Options
  import opened Moments
  import opened Base64Url
  import SecretBox

  datatype Status = Pending | Authorized | Expired | Failed

  /** A login record; `session` is what the stored session hash is the hash of. */
  datatype Login = Login(
    status: Status, customer: string, device: string, environment: string,
    session: Option<string>, sessionBox: Option<string>, accessBox: Option<string>,
    tokenExpires: Option<int>, stateExpires: int, createdAt: int,
    completedAt: Option<int>, claimedAt: Option<int>, refreshedAt: Option<int>)

  /** Records by state. */
  type Logins = map<string, Login>

  /** How a client names its login; a blank session id means by state. */
  datatype Handle = BySession(id: string) | ByState(state: string)

  /** The secret the server seals with. */
  datatype Vault = Vault(library: SecretBox.Library, secret: string)

  function Seal(vault: Vault, text: string, nonce: seq<Byte>): Option<string> {
    var sealed := SecretBox.Encrypt(vault.library, vault.secret, Some(text), nonce);
    if sealed.Secret? then Some(sealed.text) else None
  }

  /** The text of a box; an empty text counts as unreadable. */
  function Open(vault: Vault, box: Option<string>): Option<string> {
    var unsealed := SecretBox.Decrypt(vault.library, vault.secret, box);
    if unsealed.Secret? && unsealed.text != "" then Some(unsealed.text) else None
  }

  function Rank(status: Status): nat {
    match status
    case Pending => 0
    case Authorized => 1
    case Expired => 2
    case Failed => 3
  }

  // ----- The service's steps -----

  const WEEK := 7 * DAY

  predicate Overdue(l: Login, now: int) {
    || (l.status == Pending && l.stateExpires <= now)
    || (l.status == Authorized && l.tokenExpires.Some? && l.tokenExpires.value <= now)
  }

  function WithExpiry(l: Login, now: int): Login {
    l.(status := Expired, completedAt := l.completedAt.Or(Some(Iso(now))))
  }

  function ExpireIfNeeded(l: Login, now: int): Login {
    if Overdue(l, now) then WithExpiry(l, now) else l
  }

  /** Expires overdue pending logins, then deletes week-old ones that never held a live token. */
  function Cleanup(logins: Logins, now: int): Logins {
    map s | s in logins && !(CleanedUp(logins[s], now).status != Authorized && logins[s].createdAt < Iso(now - WEEK))
      :: CleanedUp(logins[s], now)
  }

  function CleanedUp(l: Login, now: int): Login {
    if l.status == Pending && l.stateExpires <= Iso(now) then l.(status := Expired, completedAt := l.completedAt.Or(Some(Iso(now)))) else l
  }

  function Start(logins: Logins, state: string, customer: string, device: string, environment: string, stateSeconds: int, now: int): Logins {
    var cleaned := Cleanup(logins, now);
    if state in cleaned then logins
    else
      var lifetime := if stateSeconds < 60 then 60 else stateSeconds;
      cleaned[state := Login(Pending, customer, device, environment, None, None, None, None,
                             Iso(now + lifetime * SECOND), Iso(now), None, None, None)]
  }

  function Callback(logins: Logins, state: string, now: int): Logins {
    if state in logins then logins[state := ExpireIfNeeded(logins[state], now)] else logins
  }

  /** No status guard: any login can be failed. */
  function Fail(logins: Logins, state: string, now: int): Logins {
    if state in logins then logins[state := logins[state].(status := Failed, completedAt := Some(Iso(now)))] else logins
  }

  /** What the provider answered: a token with its end, or none. */
  datatype Grant = Grant(accessToken: string, expiresAt: Option<int>)

  /** Randomness one step may use: a session id and two nonces. */
  datatype Random = Random(session: string, sessionNonce: seq<Byte>, tokenNonce: seq<Byte>)

  function WithToken(vault: Vault, l: Login, grant: Grant, random: Random, now: int): Login {
    l.(status := Authorized, session := Some(random.session),
       sessionBox := Seal(vault, random.session, random.sessionNonce), accessBox := Seal(vault, grant.accessToken, random.tokenNonce),
       tokenExpires := IsoOption(grant.expiresAt), completedAt := Some(Iso(now)))
  }

  /** The read of the status and the write are one step here. */
  function Authorize(vault: Vault, logins: Logins, state: string, grant: Grant, random: Random, now: int): Logins {
    if grant.accessToken == "" then Fail(logins, state, now)
    else if state !in logins then logins
    else
      var l := ExpireIfNeeded(logins[state], now);
      if l.status != Pending then logins[state := l] else logins[state := WithToken(vault, l, grant, random, now)]
  }

  ghost function Lookup(logins: Logins, handle: Handle): Option<string> {
    match handle
    case ByState(state) => if state in logins then Some(state) else None
    case BySession(id) =>
      if exists s :: s in logins && logins[s].session == Some(id) then
        var s :| s in logins && logins[s].session == Some(id); Some(s)
      else None
  }

  /** The handle returned to the client; an unreadable one is replaced only if the login has none. */
  function SessionHandle(vault: Vault, l: Login, random: Random): (Login, string) {
    var known := Open(vault, l.sessionBox);
    if known.Some? then (l, known.value)
    else if l.session.None? then
      (l.(session := Some(random.session), sessionBox := Seal(vault, random.session, random.sessionNonce)), random.session)
    else (l, random.session)
  }

  datatype ClaimResult =
    | NoLogin | WrongOwner | NotAuthorized(status: Status) | Unreadable
    | Granted(accessToken: string, session: string, environment: string, expiresAt: Option<int>)

  /** The common part of completing a login and of reading the context for a refresh, on the record found. */
  function Claim(vault: Vault, found: Login, customer: string, device: string, claims: bool, random: Random, now: int): (Login, ClaimResult) {
    var l := ExpireIfNeeded(found, now);
    if l.customer != customer || l.device != device then (l, WrongOwner)
    else if l.status != Authorized then (l, NotAuthorized(l.status))
    else
      var accessToken := Open(vault, l.accessBox);
      var (named, session) := SessionHandle(vault, l, random);
      if accessToken.None? then (named, Unreadable)
      else (if claims then named.(claimedAt := named.claimedAt.Or(Some(Iso(now)))) else named,
            Granted(accessToken.value, session, l.environment, l.tokenExpires))
  }

  function Renewed(vault: Vault, l: Login, grant: Grant, random: Random, now: int): Login {
    l.(accessBox := Seal(vault, grant.accessToken, random.tokenNonce), tokenExpires := IsoOption(grant.expiresAt),
       refreshedAt := Some(Iso(now)))
  }

  /** Stores a renewed token and hands out the session; the status is checked, the old token's end is not. */
  function Refreshed(vault: Vault, l: Login, grant: Grant, random: Random, now: int): (Login, Option<string>) {
    if grant.accessToken == "" || l.status != Authorized then (l, None)
    else
      var (named, session) := SessionHandle(vault, Renewed(vault, l, grant, random, now), random);
      (named, Some(session))
  }

  datatype Action =
    | StartLogin(state: string, customer: string, device: string, environment: string, stateSeconds: int, now: int)
    | CallbackContext(state: string, now: int)
    | FailLogin(state: string, now: int)
    | AuthorizeLogin(state: string, grant: Grant, random: Random, now: int)
    | ClaimContext(handle: Handle, customer: string, device: string, claims: bool, random: Random, now: int)
    | StoreRefresh(handle: Handle, grant: Grant, random: Random, now: int)

  ghost function Act(vault: Vault, logins: Logins, action: Action): Logins {
    match action
    case StartLogin(state, customer, device, environment, stateSeconds, now) =>
      Start(logins, state, customer, device, environment, stateSeconds, now)
    case CallbackContext(state, now) => Callback(logins, state, now)
    case FailLogin(state, now) => Fail(logins, state, now)
    case AuthorizeLogin(state, grant, random, now) => Authorize(vault, logins, state, grant, random, now)
    case ClaimContext(handle, customer, device, claims, random, now) =>
      var state := Lookup(logins, handle);
      if state.None? then logins
      else logins[state.value := Claim(vault, logins[state.value], customer, device, claims, random, now).0]
    case StoreRefresh(handle, grant, random, now) =>
      var state := Lookup(logins, handle);
      if state.None? then logins else logins[state.value := Refreshed(vault, logins[state.value], grant, random, now).0]
  }

  ghost function Run(vault: Vault, logins: Logins, actions: seq<Action>): Logins
    decreases |actions|
  {
    if actions == [] then logins else Run(vault, Act(vault, logins, actions[0]), actions[1..])
  }

  // ----- Statuses and owners -----

  /** The later record has the same owner and a status no lower. */
  predicate Advances(before: Login, after: Login) {
    && after.customer == before.customer && after.device == before.device && after.createdAt == before.createdAt
    && Rank(before.status) <= Rank(after.status)
  }

  lemma ClaimAdvances(vault: Vault, l: Login, customer: string, device: string, claims: bool, random: Random, now: int)
    ensures Advances(l, Claim(vault, l, customer, device, claims, random, now).0)
  {
  }

  lemma RefreshAdvances(vault: Vault, l: Login, grant: Grant, random: Random, now: int)
    ensures Advances(l, Refreshed(vault, l, grant, random, now).0)
  {
  }

  lemma AuthorizeAdvances(vault: Vault, logins: Logins, state: string, grant: Grant, random: Random, now: int, s: string)
    requires s in logins
    ensures s in Authorize(vault, logins, state, grant, random, now)
    ensures Advances(logins[s], Authorize(vault, logins, state, grant, random, now)[s])
  {
  }

  lemma ActAdvances(vault: Vault, logins: Logins, action: Action, state: string)
    requires state in logins
    ensures state in Act(vault, logins, action) && !(action.StartLogin? && action.state == state) ==>
      Advances(logins[state], Act(vault, logins, action)[state])
    ensures state !in Act(vault, logins, action) ==> action.StartLogin? && logins[state].createdAt < Iso(action.now - WEEK)
  {
    match action
    case AuthorizeLogin(s, grant, random, now) => AuthorizeAdvances(vault, logins, s, grant, random, now, state);
    case ClaimContext(_, customer, device, claims, random, now) => ClaimAdvances(vault, logins[state], customer, device, claims, random, now);
    case StoreRefresh(_, grant, random, now) => RefreshAdvances(vault, logins[state], grant, random, now);
    case _ =>
  }

  lemma ActDoesNotRevive(vault: Vault, logins: Logins, action: Action, state: string)
    requires state !in logins && !(action.StartLogin? && action.state == state)
    ensures state !in Act(vault, logins, action)
  {
  }

  predicate Restarts(actions: seq<Action>, state: string) {
    exists i :: 0 <= i < |actions| && actions[i].StartLogin? && actions[i].state == state
  }

  /** Over any interleaving of atomic steps, a surviving login keeps its owner and its status never goes down. When other
      writes come between a step's read and its write, `OAuthRaces` says exactly when that still holds. */
  lemma {:induction false} StatusNeverGoesDown(vault: Vault, logins: Logins, actions: seq<Action>, state: string)
    requires !Restarts(actions, state)
    ensures state in Run(vault, logins, actions) ==> state in logins && Advances(logins[state], Run(vault, logins, actions)[state])
    decreases |actions|
  {
    if actions != [] {
      var next := Act(vault, logins, actions[0]);
      assert !(actions[0].StartLogin? && actions[0].state == state);
      assert forall i :: 0 <= i < |actions[1..]| ==> actions[1..][i] == actions[i + 1];
      StatusNeverGoesDown(vault, next, actions[1..], state);
      if state in logins {
        ActAdvances(vault, logins, actions[0], state);
      } else {
        ActDoesNotRevive(vault, logins, actions[0], state);
      }
    }
  }

  /** A token is handed out only to the customer and device that started the login, while it is authorized, before its
      end, and it is the stored one. */
  lemma TokensGoOnlyToTheOwner(vault: Vault, logins: Logins, start: Action, actions: seq<Action>, handle: Handle,
                               customer: string, device: string, claims: bool, random: Random, now: int)
    requires start.StartLogin? && start.state !in Cleanup(logins, start.now) && !Restarts(actions, start.state)
    requires Lookup(Run(vault, Act(vault, logins, start), actions), handle) == Some(start.state)
    requires Claim(vault, Run(vault, Act(vault, logins, start), actions)[start.state], customer, device, claims, random, now).1.Granted?
    ensures customer == start.customer && device == start.device
    ensures var l := Run(vault, Act(vault, logins, start), actions)[start.state];
      && l.status == Authorized && (l.tokenExpires.Some? ==> now < l.tokenExpires.value)
      && Open(vault, l.accessBox) == Some(Claim(vault, l, customer, device, claims, random, now).1.accessToken)
  {
    StatusNeverGoesDown(vault, Act(vault, logins, start), actions, start.state);
  }

  // ----- Session handles -----

  /** The unique index on sessions. */
  ghost predicate UniqueSessions(logins: Logins) {
    forall s, t :: s in logins && t in logins && logins[s].session.Some? && logins[s].session == logins[t].session ==> s == t
  }

  /** Each stored session box opens to the session it is stored with, and sessions are not shared. */
  ghost predicate SessionsOpen(vault: Vault, logins: Logins) {
    (forall s :: s in logins ==> SessionOpens(vault, logins[s])) && UniqueSessions(logins)
  }

  predicate SessionOpens(vault: Vault, l: Login) {
    if l.session.Some? then Open(vault, l.sessionBox) == l.session else l.sessionBox.None?
  }

  predicate FreshRandom(logins: Logins, random: Random) {
    && random.session != "" && |random.sessionNonce| == 16
    && forall s :: s in logins ==> logins[s].session != Some(random.session)
  }

  /** Random session ids are new and short enough to seal. */
  ghost predicate GoodRandom(vault: Vault, logins: Logins, action: Action) {
    action.AuthorizeLogin? || action.ClaimContext? || action.StoreRefresh? ==>
      FreshRandom(logins, action.random) && |vault.library.toUtf8(action.random.session)| <= SecretBox.STREAM_LIMIT
  }

  lemma SealedSessionOpens(vault: Vault, id: string, nonce: seq<Byte>)
    requires SecretBox.Sound(vault.library) && id != "" && |nonce| == 16 && |vault.library.toUtf8(id)| <= SecretBox.STREAM_LIMIT
    ensures Open(vault, Seal(vault, id, nonce)) == Some(id)
  {
    SecretBox.DecryptInvertsEncrypt(vault.library, vault.secret, id, nonce);
  }

  lemma NothingOpensToNothing(vault: Vault)
    ensures Open(vault, None) == None
  {
  }

  lemma OneLoginChanges(vault: Vault, logins: Logins, state: string, after: Login)
    requires SessionsOpen(vault, logins) && state in logins && SessionOpens(vault, after)
    requires after.session == logins[state].session || forall s :: s in logins ==> logins[s].session != after.session
    ensures SessionsOpen(vault, logins[state := after])
  {
  }

  lemma SessionHandleOpens(vault: Vault, l: Login, random: Random)
    requires SecretBox.Sound(vault.library) && SessionOpens(vault, l)
    requires random.session != "" && |random.sessionNonce| == 16 && |vault.library.toUtf8(random.session)| <= SecretBox.STREAM_LIMIT
    ensures var (named, session) := SessionHandle(vault, l, random);
      && named.session == Some(session) && SessionOpens(vault, named)
      && (named.session == l.session || session == random.session)
  {
    NothingOpensToNothing(vault);
    SealedSessionOpens(vault, random.session, random.sessionNonce);
  }

  lemma AuthorizeKeepsSessions(vault: Vault, logins: Logins, state: string, grant: Grant, random: Random, now: int)
    requires SecretBox.Sound(vault.library) && SessionsOpen(vault, logins) && state in logins
    requires FreshRandom(logins, random) && |vault.library.toUtf8(random.session)| <= SecretBox.STREAM_LIMIT
    ensures SessionsOpen(vault, Authorize(vault, logins, state, grant, random, now))
  {
    assert SessionOpens(vault, logins[state]);
    var l, after := ExpireIfNeeded(logins[state], now), Authorize(vault, logins, state, grant, random, now);
    assert l.session == logins[state].session && l.sessionBox == logins[state].sessionBox;
    if grant.accessToken == "" || l.status != Pending {
      OtherStepsKeepSessions(vault, logins, after);
    } else {
      SealedSessionOpens(vault, random.session, random.sessionNonce);
      assert after[state].session == Some(random.session) && SessionOpens(vault, after[state]);
      OneLoginChanges(vault, logins, state, after[state]);
      assert after == logins[state := after[state]];
    }
  }

  lemma ClaimKeepsSessions(vault: Vault, logins: Logins, state: string, customer: string, device: string, claims: bool, random: Random, now: int)
    requires SecretBox.Sound(vault.library) && SessionsOpen(vault, logins) && state in logins
    requires FreshRandom(logins, random) && |vault.library.toUtf8(random.session)| <= SecretBox.STREAM_LIMIT
    ensures SessionsOpen(vault, logins[state := Claim(vault, logins[state], customer, device, claims, random, now).0])
  {
    var l := ExpireIfNeeded(logins[state], now);
    assert SessionOpens(vault, logins[state]);
    assert l.session == logins[state].session && l.sessionBox == logins[state].sessionBox;
    SessionHandleOpens(vault, l, random);
    var after := Claim(vault, logins[state], customer, device, claims, random, now).0;
    assert SessionOpens(vault, after);
    OneLoginChanges(vault, logins, state, after);
  }

  lemma RefreshKeepsSessions(vault: Vault, logins: Logins, state: string, grant: Grant, random: Random, now: int)
    requires SecretBox.Sound(vault.library) && SessionsOpen(vault, logins) && state in logins
    requires FreshRandom(logins, random) && |vault.library.toUtf8(random.session)| <= SecretBox.STREAM_LIMIT
    ensures SessionsOpen(vault, logins[state := Refreshed(vault, logins[state], grant, random, now).0])
  {
    var l := logins[state];
    assert SessionOpens(vault, l);
    SessionHandleOpens(vault, Renewed(vault, l, grant, random, now), random);
    OneLoginChanges(vault, logins, state, Refreshed(vault, l, grant, random, now).0);
  }

  /** Steps that touch no session keep them all. */
  lemma OtherStepsKeepSessions(vault: Vault, logins: Logins, after: Logins)
    requires SecretBox.Sound(vault.library) && SessionsOpen(vault, logins)
    requires forall s :: s in after ==>
      if s in logins then after[s].session == logins[s].session && after[s].sessionBox == logins[s].sessionBox
      else after[s].session.None? && after[s].sessionBox.None?
    ensures SessionsOpen(vault, after)
  {
    forall s | s in after
      ensures SessionOpens(vault, after[s])
    {
      if s in logins {
        assert SessionOpens(vault, logins[s]);
      }
    }
  }

  lemma StartKeepsSessions(vault: Vault, logins: Logins, state: string, customer: string, device: string, environment: string, stateSeconds: int, now: int)
    requires SecretBox.Sound(vault.library) && SessionsOpen(vault, logins)
    ensures SessionsOpen(vault, Start(logins, state, customer, device, environment, stateSeconds, now))
  {
    var cleaned := Cleanup(logins, now);
    OtherStepsKeepSessions(vault, logins, cleaned);
    if state !in cleaned {
      OtherStepsKeepSessions(vault, cleaned, Start(logins, state, customer, device, environment, stateSeconds, now));
    }
  }

  lemma ActKeepsSessions(vault: Vault, logins: Logins, action: Action)
    requires SecretBox.Sound(vault.library) && SessionsOpen(vault, logins) && GoodRandom(vault, logins, action)
    ensures SessionsOpen(vault, Act(vault, logins, action))
  {
    match action
    case StartLogin(state, customer, device, environment, stateSeconds, now) =>
      StartKeepsSessions(vault, logins, state, customer, device, environment, stateSeconds, now);
    case CallbackContext(state, now) =>
      OtherStepsKeepSessions(vault, logins, Callback(logins, state, now));
    case FailLogin(state, now) =>
      OtherStepsKeepSessions(vault, logins, Fail(logins, state, now));
    case AuthorizeLogin(state, grant, random, now) =>
      if state in logins {
        AuthorizeKeepsSessions(vault, logins, state, grant, random, now);
      }
    case ClaimContext(handle, customer, device, claims, random, now) =>
      var state := Lookup(logins, handle);
      if state.Some? {
        ClaimKeepsSessions(vault, logins, state.value, customer, device, claims, random, now);
      }
    case StoreRefresh(handle, grant, random, now) =>
      var state := Lookup(logins, handle);
      if state.Some? {
        RefreshKeepsSessions(vault, logins, state.value, grant, random, now);
      }
  }

  /** With any secret, a returned handle is the login's own session exactly when the stored box opens to that session. */
  lemma HandleIsLostWhenBoxDoesNotOpen(vault: Vault, l: Login, random: Random)
    requires l.session != Some(random.session)
    ensures var (named, session) := SessionHandle(vault, l, random);
      named.session == Some(session) <==> Open(vault, l.sessionBox) == l.session
  {
  }

  ghost predicate GoodRun(vault: Vault, logins: Logins, actions: seq<Action>)
    decreases |actions|
  {
    actions == [] || (GoodRandom(vault, logins, actions[0]) && GoodRun(vault, Act(vault, logins, actions[0]), actions[1..]))
  }

  lemma {:induction false} RunKeepsSessions(vault: Vault, logins: Logins, actions: seq<Action>)
    requires SecretBox.Sound(vault.library) && SessionsOpen(vault, logins) && GoodRun(vault, logins, actions)
    ensures SessionsOpen(vault, Run(vault, logins, actions))
    decreases |actions|
  {
    if actions != [] {
      ActKeepsSessions(vault, logins, actions[0]);
      RunKeepsSessions(vault, Act(vault, logins, actions[0]), actions[1..]);
    }
  }

  /** The login is past pending and has this session. */
  predicate Holds(l: Login, session: string) {
    l.status != Pending && l.session == Some(session)
  }

  lemma HandleKeepsSession(vault: Vault, l: Login, random: Random, session: string)
    requires Holds(l, session)
    ensures SessionHandle(vault, l, random).0 == l
  {
  }

  lemma ActKeepsSession(vault: Vault, logins: Logins, action: Action, state: string, session: string)
    requires state in logins && Holds(logins[state], session) && !(action.StartLogin? && action.state == state)
    ensures state in Act(vault, logins, action) ==> Holds(Act(vault, logins, action)[state], session)
  {
    var l := logins[state];
    match action
    case ClaimContext(_, _, _, _, random, now) => HandleKeepsSession(vault, ExpireIfNeeded(l, now), random, session);
    case StoreRefresh(_, grant, random, now) => HandleKeepsSession(vault, Renewed(vault, l, grant, random, now), random, session);
    case _ =>
  }

  /** A session, once given to a login past pending, stays with it through every run. */
  lemma {:induction false} SessionStays(vault: Vault, logins: Logins, actions: seq<Action>, state: string, session: string)
    requires state in logins && Holds(logins[state], session) && !Restarts(actions, state)
    ensures state in Run(vault, logins, actions) ==> Holds(Run(vault, logins, actions)[state], session)
    decreases |actions|
  {
    if actions != [] {
      var next := Act(vault, logins, actions[0]);
      assert !(actions[0].StartLogin? && actions[0].state == state);
      assert forall i :: 0 <= i < |actions[1..]| ==> actions[1..][i] == actions[i + 1];
      ActKeepsSession(vault, logins, actions[0], state, session);
      if state in next {
        SessionStays(vault, next, actions[1..], state, session);
      } else {
        StatusNeverGoesDown(vault, next, actions[1..], state);
      }
    }
  }

  /** A session handle and the login it was handed out for. */
  datatype Handed = Handed(state: string, session: string)

  /** What an action hands out: a granted claim and a stored refresh both return a handle. */
  ghost function HandedOut(vault: Vault, logins: Logins, action: Action): Option<Handed> {
    match action
    case ClaimContext(handle, customer, device, claims, random, now) =>
      var state := Lookup(logins, handle);
      if state.None? then None
      else
        var result := Claim(vault, logins[state.value], customer, device, claims, random, now).1;
        if result.Granted? then Some(Handed(state.value, result.session)) else None
    case StoreRefresh(handle, grant, random, now) =>
      var state := Lookup(logins, handle);
      if state.None? then None
      else
        var session := Refreshed(vault, logins[state.value], grant, random, now).1;
        if session.Some? then Some(Handed(state.value, session.value)) else None
    case _ => None
  }

  /** The record whose handle is handed out: nothing but the token columns has changed since the lookup. */
  ghost predicate HandsOutFrom(vault: Vault, l: Login, source: Login, after: Login, session: string, random: Random) {
    && source.session == l.session && source.sessionBox == l.sessionBox && source.status == Authorized
    && SessionHandle(vault, source, random).1 == session
    && after.session == SessionHandle(vault, source, random).0.session && after.status == Authorized
  }

  lemma ActHandsOut(vault: Vault, logins: Logins, action: Action) returns (source: Login)
    requires HandedOut(vault, logins, action).Some?
    ensures var h := HandedOut(vault, logins, action).value;
      && h.state in logins && h.state in Act(vault, logins, action)
      && Act(vault, logins, action) == logins[h.state := Act(vault, logins, action)[h.state]]
      && HandsOutFrom(vault, logins[h.state], source, Act(vault, logins, action)[h.state], h.session, action.random)
  {
    var l := logins[HandedOut(vault, logins, action).value.state];
    match action
    case ClaimContext(_, _, _, _, _, now) => source := ExpireIfNeeded(l, now);
    case StoreRefresh(_, grant, random, now) => source := Renewed(vault, l, grant, random, now);
  }

  /** Under one secret, the session handle a claim or a refresh returns finds that same login after any later run, while
      the login lasts. */
  lemma ReturnedHandleFindsItsLogin(vault: Vault, actions: seq<Action>, action: Action, later: seq<Action>)
    requires SecretBox.Sound(vault.library) && GoodRun(vault, map[], actions)
    requires var logins := Run(vault, map[], actions);
      && GoodRandom(vault, logins, action) && HandedOut(vault, logins, action).Some?
      && GoodRun(vault, Act(vault, logins, action), later)
      && !Restarts(later, HandedOut(vault, logins, action).value.state)
    ensures var logins := Run(vault, map[], actions);
      var h, after := HandedOut(vault, logins, action).value, Act(vault, logins, action);
      && Lookup(after, BySession(h.session)) == Some(h.state)
      && (h.state in Run(vault, after, later) ==> Lookup(Run(vault, after, later), BySession(h.session)) == Some(h.state))
  {
    RunKeepsSessions(vault, map[], actions);
    var logins := Run(vault, map[], actions);
    var h, after := HandedOut(vault, logins, action).value, Act(vault, logins, action);
    ActKeepsSessions(vault, logins, action);
    var source := ActHandsOut(vault, logins, action);
    assert SessionOpens(vault, logins[h.state]);
    SessionHandleOpens(vault, source, action.random);
    HeldSessionIsFound(vault, after, h.state, h.session);
    HeldSessionStaysFound(vault, after, later, h.state, h.session);
  }

  lemma HeldSessionStaysFound(vault: Vault, logins: Logins, later: seq<Action>, state: string, session: string)
    requires SecretBox.Sound(vault.library) && SessionsOpen(vault, logins) && GoodRun(vault, logins, later)
    requires state in logins && Holds(logins[state], session) && !Restarts(later, state)
    ensures state in Run(vault, logins, later) ==> Lookup(Run(vault, logins, later), BySession(session)) == Some(state)
  {
    RunKeepsSessions(vault, logins, later);
    SessionStays(vault, logins, later, state, session);
    if state in Run(vault, logins, later) {
      HeldSessionIsFound(vault, Run(vault, logins, later), state, session);
    }
  }

  /** Under any secret, a returned handle finds its login exactly when the stored box opens to the stored session; when the
      box of a named login does not open, the handle finds nothing. */
  lemma HandleFindsLoginExactly(vault: Vault, logins: Logins, action: Action)
    requires UniqueSessions(logins) && HandedOut(vault, logins, action).Some? && FreshRandom(logins, action.random)
    ensures var h, after := HandedOut(vault, logins, action).value, Act(vault, logins, action);
      var l := logins[h.state];
      && (Lookup(after, BySession(h.session)) == Some(h.state) <==> Open(vault, l.sessionBox) == l.session)
      && (Open(vault, l.sessionBox).None? && l.session.Some? ==>
            h.session == action.random.session && Lookup(after, BySession(h.session)) == None)
  {
    var h, after := HandedOut(vault, logins, action).value, Act(vault, logins, action);
    var source := ActHandsOut(vault, logins, action);
    HandleIsLostWhenBoxDoesNotOpen(vault, source, action.random);
    assert forall s :: s in logins && s != h.state ==> after[s] == logins[s];
    if after[h.state].session == Some(h.session) {
      assert forall s :: s in after && after[s].session == Some(h.session) ==> s == h.state;
    }
  }

  /** After a change of the secret, refreshing a login stored under the old one hands out a handle that finds nothing. */
  lemma SecretChangeLosesHandle(former: Vault, vault: Vault, logins: Logins, action: Action, state: string, session: string, nonce: seq<Byte>)
    requires vault.library == former.library && SecretBox.Sound(vault.library) && UniqueSessions(logins)
    requires action.StoreRefresh? && action.grant.accessToken != "" && Lookup(logins, action.handle) == Some(state)
    requires FreshRandom(logins, action.random) && state in logins && logins[state].status == Authorized
    requires Seal(former, session, nonce).Some?
    requires logins[state].session == Some(session) && logins[state].sessionBox == Seal(former, session, nonce)
    requires var lib, body := vault.library, SecretBox.SealedBody(former.library, former.secret, session, nonce);
      lib.hmac(lib.deriveKeys(vault.secret).1, body) != lib.hmac(lib.deriveKeys(former.secret).1, body)
    ensures HandedOut(vault, logins, action) == Some(Handed(state, action.random.session))
    ensures Lookup(Act(vault, logins, action), BySession(action.random.session)) == None
  {
    SecretBox.OtherSecretDoesNotOpen(former.library, former.secret, vault.secret, session, nonce);
    assert Open(vault, logins[state].sessionBox).None?;
    HandleFindsLoginExactly(vault, logins, action);
  }

  lemma HeldSessionIsFound(vault: Vault, logins: Logins, state: string, session: string)
    requires SessionsOpen(vault, logins) && state in logins && Holds(logins[state], session)
    ensures Lookup(logins, BySession(session)) == Some(state)
  {
  }

  // ----- The table and the service methods -----

  /** A login just started: pending, without token or session, open as long as asked and at least a minute. */
  predicate IsNewLogin(l: Login, customer: string, device: string, environment: string, stateSeconds: int, now: int) {
    && l.status == Pending && l.customer == customer && l.device == device && l.environment == environment
    && l.session.None? && l.sessionBox.None? && l.accessBox.None? && l.tokenExpires.None? && l.createdAt == Iso(now)
    && l.stateExpires == (if stateSeconds < 60 then Iso(now + 60 * SECOND) else Iso(now + stateSeconds * SECOND))
  }

  /** Every other login keeps its owner and advances, or is a week old and goes. */
  predicate OthersCarryOn(before: Logins, after: Logins, state: string, now: int) {
    && (forall s :: s in before && s != state ==>
          if s in after then Advances(before[s], after[s]) else before[s].createdAt < Iso(now - WEEK))
    && (forall s :: s in after && s != state ==> s in before)
  }

  lemma StartMakesOneLogin(logins: Logins, state: string, customer: string, device: string, environment: string, stateSeconds: int, now: int)
    ensures var after := Start(logins, state, customer, device, environment, stateSeconds, now);
      && OthersCarryOn(logins, after, state, now)
      && (state !in Cleanup(logins, now) ==> state in after && IsNewLogin(after[state], customer, device, environment, stateSeconds, now))
  {
  }

  predicate KeepsSecrets(before: Login, after: Login) {
    after.session == before.session && after.sessionBox == before.sessionBox && after.accessBox == before.accessBox
  }

  class LoginDesk {
    const vault: Vault
    var logins: Logins

    constructor (vault: Vault)
      ensures this.vault == vault && logins == map[]
    {
      this.vault := vault;
      logins := map[];
    }

    /** A new state becomes a pending login of this caller, good for at least a minute; a state still stored changes nothing.
        Every other login keeps its owner and advances, or is a week old and goes. */
    method StartLogin(state: string, customer: string, device: string, environment: string, stateSeconds: int, now: int)
      modifies this
      ensures logins == Act(vault, old(logins), Action.StartLogin(state, customer, device, environment, stateSeconds, now))
      ensures if state in Cleanup(old(logins), now) then logins == old(logins)
              else state in logins && IsNewLogin(logins[state], customer, device, environment, stateSeconds, now)
      ensures OthersCarryOn(old(logins), logins, state, now)
    {
      StartMakesOneLogin(logins, state, customer, device, environment, stateSeconds, now);
      var cleaned := Cleanup(logins, now);
      if state in cleaned {
        return;
      }
      var lifetime := if stateSeconds < 60 then 60 else stateSeconds;
      logins := cleaned[state := Login(Pending, customer, device, environment, None, None, None, None,
                                       Iso(now + lifetime * SECOND), Iso(now), None, None, None)];
    }

    /** Marks an overdue login expired. */
    method ExpireRowIfNeeded(state: string, now: int)
      requires state in logins
      modifies this
      ensures logins == old(logins)[state := ExpireIfNeeded(old(logins)[state], now)]
    {
      var l := logins[state];
      if l.status == Pending && l.stateExpires <= now {
        l := l.(status := Expired, completedAt := l.completedAt.Or(Some(Iso(now))));
      }
      if l.status == Authorized && l.tokenExpires.Some? && l.tokenExpires.value <= now {
        l := l.(status := Expired, completedAt := l.completedAt.Or(Some(Iso(now))));
      }
      logins := logins[state := l];
    }

    method CallbackContext(state: string, now: int) returns (status: Option<Status>)
      modifies this
      ensures logins == Act(vault, old(logins), Action.CallbackContext(state, now))
      ensures status == if state in logins then Some(logins[state].status) else None
    {
      if state !in logins {
        return None;
      }
      ExpireRowIfNeeded(state, now);
      return Some(logins[state].status);
    }

    /** A stored login ends as failed, whatever it was, with its owner, token and session columns kept; no other login changes. */
    method FailLogin(state: string, now: int)
      modifies this
      ensures logins == Act(vault, old(logins), Action.FailLogin(state, now))
      ensures logins.Keys == old(logins).Keys && forall s :: s in logins && s != state ==> logins[s] == old(logins)[s]
      ensures state in logins ==> logins[state].status == Failed && logins[state].completedAt == Some(Iso(now))
      ensures state in logins ==> Advances(old(logins)[state], logins[state]) && KeepsSecrets(old(logins)[state], logins[state])
    {
      if state in logins {
        logins := logins[state := logins[state].(status := Failed, completedAt := Some(Iso(now)))];
      }
    }

    /** The login is authorized afterwards exactly when there is a token and it was pending or authorized and not overdue;
        only a pending one takes the new token and session, and no other login changes. */
    method AuthorizeLogin(state: string, grant: Grant, random: Random, now: int)
      modifies this
      ensures logins == Act(vault, old(logins), Action.AuthorizeLogin(state, grant, random, now))
      ensures logins.Keys == old(logins).Keys && forall s :: s in logins && s != state ==> logins[s] == old(logins)[s]
      ensures state in logins ==> (logins[state].status == Authorized <==>
        (grant.accessToken != "" && old(logins)[state].status in {Pending, Authorized} && !Overdue(old(logins)[state], now)))
      ensures state in logins && logins[state].status == Authorized && old(logins)[state].status == Pending ==>
        logins[state].session == Some(random.session) && logins[state].tokenExpires == IsoOption(grant.expiresAt)
    {
      if grant.accessToken == "" {
        FailLogin(state, now);
        return;
      }
      if state !in logins {
        return;
      }
      ExpireRowIfNeeded(state, now);
      if logins[state].status != Pending {
        return;
      }
      logins := logins[state := WithToken(vault, logins[state], grant, random, now)];
    }

    method FindLogin(handle: Handle) returns (state: Option<string>)
      requires UniqueSessions(logins)
      ensures state == Lookup(logins, handle)
    {
      if handle.ByState? {
        return if handle.state in logins then Some(handle.state) else None;
      }
      var left := logins.Keys;
      while left != {}
        invariant left <= logins.Keys
        invariant forall s :: s in logins && s !in left ==> logins[s].session != Some(handle.id)
        decreases left
      {
        var s :| s in left;
        if logins[s].session == Some(handle.id) {
          return Some(s);
        }
        left := left - {s};
      }
      return None;
    }

    /** The session handle of a record; a missing one is made up and stored. */
    method SessionHandleOf(state: string, random: Random) returns (session: string)
      requires state in logins
      modifies this
      ensures logins == old(logins)[state := SessionHandle(vault, old(logins)[state], random).0]
      ensures session == SessionHandle(vault, old(logins)[state], random).1
    {
      assert logins == logins[state := logins[state]];
      var known := Open(vault, logins[state].sessionBox);
      if known.Some? {
        return known.value;
      }
      if logins[state].session.None? {
        logins := logins[state := logins[state].(session := Some(random.session), sessionBox := Seal(vault, random.session, random.sessionNonce))];
      }
      return random.session;
    }

    method ClaimLogin(state: string, customer: string, device: string, claims: bool, random: Random, now: int) returns (result: ClaimResult)
      requires state in logins
      modifies this
      ensures logins == old(logins)[state := Claim(vault, old(logins)[state], customer, device, claims, random, now).0]
      ensures result == Claim(vault, old(logins)[state], customer, device, claims, random, now).1
    {
      ExpireRowIfNeeded(state, now);
      var l := logins[state];
      if l.customer != customer || l.device != device {
        return WrongOwner;
      }
      if l.status != Authorized {
        return NotAuthorized(l.status);
      }
      var accessToken := Open(vault, l.accessBox);
      var session := SessionHandleOf(state, random);
      if accessToken.None? {
        return Unreadable;
      }
      if claims {
        logins := logins[state := logins[state].(claimedAt := logins[state].claimedAt.Or(Some(Iso(now))))];
      }
      return Granted(accessToken.value, session, l.environment, l.tokenExpires);
    }

    method ClaimContext(handle: Handle, customer: string, device: string, claims: bool, random: Random, now: int) returns (result: ClaimResult)
      requires UniqueSessions(logins)
      modifies this
      ensures logins == Act(vault, old(logins), Action.ClaimContext(handle, customer, device, claims, random, now))
      ensures result == var state := Lookup(old(logins), handle);
        if state.None? then NoLogin else Claim(vault, old(logins)[state.value], customer, device, claims, random, now).1
    {
      var found := FindLogin(handle);
      if found.None? {
        return NoLogin;
      }
      result := ClaimLogin(found.value, customer, device, claims, random, now);
    }

    method StoreRefresh(handle: Handle, grant: Grant, random: Random, now: int) returns (session: Option<string>)
      requires UniqueSessions(logins)
      modifies this
      ensures logins == Act(vault, old(logins), Action.StoreRefresh(handle, grant, random, now))
      ensures session == var state := Lookup(old(logins), handle);
        if state.None? then None else Refreshed(vault, old(logins)[state.value], grant, random, now).1
    {
      if grant.accessToken == "" {
        return None;
      }
      var found := FindLogin(handle);
      if found.None? || logins[found.value].status != Authorized {
        return None;
      }
      var state := found.value;
      logins := logins[state := Renewed(vault, logins[state], grant, random, now)];
      var handed := SessionHandleOf(state, random);
      return Some(handed);
    }
  }
}
