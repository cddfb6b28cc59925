/** Which token a completed login hands out: the last one a step of the run gave it. */
module OAuthTokens {
  import opened Options
  import opened Moments
  import opened OAuthSessions
  import SecretBox

  /** The action gives this login a token: an authorization of a pending login still open, or a refresh of an authorized one. */
  ghost predicate GivesToken(logins: Logins, action: Action, state: string) {
    match action
    case AuthorizeLogin(s, grant, _, now) =>
      s == state && grant.accessToken != "" && state in logins && logins[state].status == Pending && now < logins[state].stateExpires
    case StoreRefresh(handle, grant, _, _) =>
      grant.accessToken != "" && state in logins && logins[state].status == Authorized
      && (if handle.ByState? then handle.state == state else logins[state].session == Some(handle.id))
    case _ => false
  }

  /** The last grant given to the login in the run, after `held`. */
  ghost function LastGiven(vault: Vault, logins: Logins, actions: seq<Action>, state: string, held: Option<Grant>): Option<Grant>
    decreases |actions|
  {
    if actions == [] then held
    else
      LastGiven(vault, Act(vault, logins, actions[0]), actions[1..], state,
                if GivesToken(logins, actions[0], state) then Some(actions[0].grant) else held)
  }

  /** Nonces are 16 bytes, and tokens are short enough to seal. */
  ghost predicate Sealable(vault: Vault, action: Action) {
    action.AuthorizeLogin? || action.StoreRefresh? ==>
      |action.random.tokenNonce| == 16 && |vault.library.toUtf8(action.grant.accessToken)| <= SecretBox.STREAM_LIMIT
  }

  ghost predicate AllSealable(vault: Vault, actions: seq<Action>) {
    forall i :: 0 <= i < |actions| ==> Sealable(vault, actions[i])
  }

  /** An authorized login's box opens to the token of this grant, and its end is the grant's. */
  ghost predicate Keeps(vault: Vault, logins: Logins, state: string, held: Option<Grant>) {
    state in logins && logins[state].status == Authorized ==>
      held.Some? && Open(vault, logins[state].accessBox) == Some(held.value.accessToken)
      && logins[state].tokenExpires == IsoOption(held.value.expiresAt)
  }

  lemma SealedTokenOpens(vault: Vault, action: Action)
    requires SecretBox.Sound(vault.library) && Sealable(vault, action)
    requires (action.AuthorizeLogin? || action.StoreRefresh?) && action.grant.accessToken != ""
    ensures Open(vault, Seal(vault, action.grant.accessToken, action.random.tokenNonce)) == Some(action.grant.accessToken)
  {
    SealedSessionOpens(vault, action.grant.accessToken, action.random.tokenNonce);
  }

  lemma AuthorizingKeeps(vault: Vault, logins: Logins, action: Action, state: string, held: Option<Grant>)
    requires SecretBox.Sound(vault.library) && Sealable(vault, action) && Keeps(vault, logins, state, held) && action.AuthorizeLogin?
    ensures Keeps(vault, Act(vault, logins, action), state, if GivesToken(logins, action, state) then Some(action.grant) else held)
  {
    if action.grant.accessToken != "" {
      SealedTokenOpens(vault, action);
    }
  }

  lemma RefreshingKeeps(vault: Vault, logins: Logins, action: Action, state: string, held: Option<Grant>)
    requires SecretBox.Sound(vault.library) && Sealable(vault, action) && UniqueSessions(logins)
    requires Keeps(vault, logins, state, held) && action.StoreRefresh?
    ensures Keeps(vault, Act(vault, logins, action), state, if GivesToken(logins, action, state) then Some(action.grant) else held)
  {
    if action.grant.accessToken != "" {
      SealedTokenOpens(vault, action);
    }
    assert Lookup(logins, action.handle) == Some(state) <==>
      (state in logins && if action.handle.ByState? then action.handle.state == state else logins[state].session == Some(action.handle.id));
  }

  lemma ActKeeps(vault: Vault, logins: Logins, action: Action, state: string, held: Option<Grant>)
    requires SecretBox.Sound(vault.library) && Sealable(vault, action) && UniqueSessions(logins) && Keeps(vault, logins, state, held)
    ensures Keeps(vault, Act(vault, logins, action), state, if GivesToken(logins, action, state) then Some(action.grant) else held)
  {
    if action.AuthorizeLogin? {
      AuthorizingKeeps(vault, logins, action, state, held);
    } else if action.StoreRefresh? {
      RefreshingKeeps(vault, logins, action, state, held);
    }
  }

  lemma {:induction false} RunKeeps(vault: Vault, logins: Logins, actions: seq<Action>, state: string, held: Option<Grant>)
    requires SecretBox.Sound(vault.library) && AllSealable(vault, actions) && SessionsOpen(vault, logins) && GoodRun(vault, logins, actions)
    requires Keeps(vault, logins, state, held)
    ensures Keeps(vault, Run(vault, logins, actions), state, LastGiven(vault, logins, actions, state, held))
    decreases |actions|
  {
    if actions != [] {
      assert Sealable(vault, actions[0]);
      assert forall i :: 0 <= i < |actions[1..]| ==> actions[1..][i] == actions[i + 1];
      ActKeeps(vault, logins, actions[0], state, held);
      ActKeepsSessions(vault, logins, actions[0]);
      RunKeeps(vault, Act(vault, logins, actions[0]), actions[1..], state,
               if GivesToken(logins, actions[0], state) then Some(actions[0].grant) else held);
    }
  }

  /** Who gets a token: the starter's customer and device, while the login is authorized, has not run out and its box opens.
      Everyone else is told why not. */
  lemma GrantedExactly(vault: Vault, l: Login, customer: string, device: string, claims: bool, random: Random, now: int)
    ensures var result := Claim(vault, l, customer, device, claims, random, now).1;
      var open := l.status == Authorized && (l.tokenExpires.Some? ==> now < l.tokenExpires.value);
      && (result.Granted? <==> customer == l.customer && device == l.device && open && Open(vault, l.accessBox).Some?)
      && (result == WrongOwner <==> customer != l.customer || device != l.device)
      && (result == Unreadable <==> customer == l.customer && device == l.device && open && Open(vault, l.accessBox).None?)
      && (result.NotAuthorized? ==>
            result.status == if l.status == Authorized || (l.status == Pending && l.stateExpires <= now) then Expired else l.status)
      && (result.Granted? ==>
            Open(vault, l.accessBox) == Some(result.accessToken) && result.environment == l.environment && result.expiresAt == l.tokenExpires)
      && result != NoLogin
  {
  }

  /** Over any run, a granted claim hands out the token and end of the last grant given to that login. */
  lemma GrantedTokenIsLastGiven(vault: Vault, actions: seq<Action>, state: string, customer: string, device: string, claims: bool, random: Random, now: int)
    requires SecretBox.Sound(vault.library) && AllSealable(vault, actions) && GoodRun(vault, map[], actions)
    requires state in Run(vault, map[], actions)
    requires Claim(vault, Run(vault, map[], actions)[state], customer, device, claims, random, now).1.Granted?
    ensures var given := LastGiven(vault, map[], actions, state, None);
      var result := Claim(vault, Run(vault, map[], actions)[state], customer, device, claims, random, now).1;
      given.Some? && result.accessToken == given.value.accessToken && result.expiresAt == IsoOption(given.value.expiresAt)
  {
    RunKeeps(vault, map[], actions, state, None);
    GrantedExactly(vault, Run(vault, map[], actions)[state], customer, device, claims, random, now);
  }

  // ----- What else the columns show -----

  /** A callback leaves a pending login whose state has run out, or an authorized one whose token has, expired, and any other
      login as it was. */
  lemma CallbackExpiresOverdue(logins: Logins, state: string, now: int)
    requires state in logins
    ensures var before, after := logins[state], Callback(logins, state, now);
      && after.Keys == logins.Keys && (forall s :: s in logins && s != state ==> after[s] == logins[s])
      && (if (before.status == Pending && before.stateExpires <= now)
            || (before.status == Authorized && before.tokenExpires.Some? && before.tokenExpires.value <= now)
          then after[state].status == Expired && after[state].completedAt.Some?
          else after[state] == before)
  {
  }

  /** Starting a login removes exactly the others that are a week old and not authorized, and expires the pending ones whose
      state has run out. */
  lemma StartRemovesExactly(logins: Logins, state: string, customer: string, device: string, environment: string, stateSeconds: int, now: int, s: string)
    requires s in logins && s != state && state !in Cleanup(logins, now)
    ensures var after := Start(logins, state, customer, device, environment, stateSeconds, now);
      && (s !in after <==> logins[s].createdAt < Iso(now - 604_800_000_000) && logins[s].status != Authorized)
      && (s in after ==>
            after[s].status == if logins[s].status == Pending && logins[s].stateExpires <= Iso(now) then Expired else logins[s].status)
  {
  }
}
