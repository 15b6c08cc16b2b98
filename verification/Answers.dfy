/** What the token endpoint answers, row by row: the conditions are about the rows of the tables and the
    numbers of the deployment, for every request to every state with distinct addresses and identifiers. */
module Answers {
  import opened Text
  import opened Scopes
  import opened Store
  import opened Steps
  import opened Machine
  import opened Emails
  import opened Clients
  import opened Chains
  import opened Base64
  import opened Pkce
  import Lockout

  /** No stored refresh token has the hash of this one. */
  predicate Fresh(cfg: Config, s: State, raw: string) {
    forall i | 0 <= i < |s.refresh| :: s.refresh[i].hash != cfg.sha(raw)
  }

  predicate LockedNow(user: User, now: nat) { user.lockedUntil.Some? && now < user.lockedUntil.value }

  lemma FreshExactly(cfg: Config, s: State, raw: string)
    ensures Fresh(cfg, s, raw) <==> FindRefresh(s.refresh, cfg.sha(raw)).None?
  {
  }

  /** From the tables `m`, user `u` was logged in through client `c`: tokens for exactly the granted scope,
      one new live row, one audit, and a clean lock; nothing else has changed. A federated login brings a
      cookie as well. */
  predicate Started(cfg: Config, m: State, out: Outcome, c: nat, u: nat, scope: string, raw: string, how: LoginMethod,
                    origin: Origin)
    requires c < |m.clients| && u < |m.users|
  {
    var client, granted := m.clients[c], UserScope(scope, m.clients[c].scopes, m.users[u].roles);
    && out.reply.Tokens? && out.reply.refresh == Some(raw) && out.reply.scope == granted
    && out.reply.access == Access(UserSubject(u), granted, client.clientId, m.now / 1_000_000,
        (m.now + cfg.accessLife) / 1_000_000)
    && out.reply.cookie == (if how != ByTelegram && how != ByGoogle then None else Some(
        BrowserLogin(UserSubject(u), m.now / 1_000_000, (m.now + cfg.browserLife) / 1_000_000)))
    && out.state == m.(
         users := m.users[u := m.users[u].(failed := 0, lockedUntil := None)],
         refresh := m.refresh + [Refresh(cfg.sha(raw), Some(u), c, granted, m.now + cfg.refreshLife, None, None)],
         births := m.births + [Birth(m.now, origin)],
         audits := m.audits + [Audit(Some(u), client.clientId, how, true, NoReason)])
  }

  lemma StartedTokens(cfg: Config, m: State, out: Outcome, c: nat, u: nat, scope: string, raw: string,
                      how: LoginMethod, origin: Origin)
    requires c < |m.clients| && u < |m.users|
    ensures Started(cfg, m, out, c, u, scope, raw, how, origin) ==> out.reply.Tokens?
  {
  }

  // ---------------------------------------------------------------- passwords

  /** Client `c` has proved itself and may take passwords. */
  predicate TakesPasswords(cfg: Config, s: State, creds: Creds, c: nat) {
    && c < |s.clients| && Proves(cfg, s.clients[c], creds)
    && cfg.passwordEnabled && s.clients[c].allowPassword && "password" in s.clients[c].grants && !s.clients[c].isPublic
  }

  /** The user name spells the address of `u`, up to letter case and outer whitespace. */
  predicate Addresses(cfg: Config, s: State, username: string, u: nat) {
    u < |s.users| && s.users[u].email == Lower(cfg.lower, Strip(username))
  }

  predicate GoodLogin(cfg: Config, s: State, creds: Creds, username: string, password: string, raw: string,
                      c: nat, u: nat) {
    && c < |s.clients| && u < |s.users|
    && username != "" && password != "" && TakesPasswords(cfg, s, creds, c) && Addresses(cfg, s, username, u)
    && s.users[u].active && !LockedNow(s.users[u], s.now) && cfg.verify(password, s.users[u].passwordHash)
    && Fresh(cfg, s, raw)
  }

  function PasswordEvent(creds: Creds, username: string, password: string, scope: string, raw: string): Event {
    TokenRequest(creds, Password(username, password, scope, raw))
  }

  /** An attempt that is refused and put on record, and does nothing else. */
  predicate RefusedLogin(s: State, out: Outcome, c: nat, user: Option<nat>, reason: Reason, error: Error)
    requires c < |s.clients|
  {
    out == Outcome(s.(audits := s.audits + [Audit(user, s.clients[c].clientId, ByPassword, false, reason)]),
                   Refused(error))
  }

  lemma AddressFinds(cfg: Config, s: State, username: string, u: nat)
    requires EmailsOk(cfg, s)
    ensures FindUser(s.users, Normal(cfg.lower, username)) == Some(u) <==> Addresses(cfg, s, username, u)
  {
    var found := FindUser(s.users, Normal(cfg.lower, username));
    hide Lower, Strip, FindUser;
  }

  lemma TakesExactly(cfg: Config, s: State, creds: Creds, c: nat)
    requires DistinctIds(s.clients)
    ensures TakesPasswords(cfg, s, creds, c)
       <==> c < |s.clients| && AuthenticateClient(cfg, s, creds) == Some(c) && PasswordAllowed(cfg, s.clients[c])
  {
    AuthenticatedExactly(cfg, s, creds, c);
    hide AuthenticateClient, Proves;
  }

  /** Who may not take passwords, and what is answered; nothing is changed or recorded. */
  lemma PasswordNotTaken(cfg: Config, s: State, creds: Creds, username: string, password: string, scope: string,
                         raw: string)
    requires DistinctIds(s.clients)
    ensures var out := Step(cfg, s, PasswordEvent(creds, username, password, scope, raw));
            && ((forall c | 0 <= c < |s.clients| :: !Proves(cfg, s.clients[c], creds)) ==>
                  out == Outcome(s, Refused(InvalidClient)))
            && forall c | 0 <= c < |s.clients| && Proves(cfg, s.clients[c], creds) ::
                 if username == "" || password == "" then out == Outcome(s, Refused(InvalidRequest))
                 else if !cfg.passwordEnabled || !s.clients[c].allowPassword || "password" !in s.clients[c].grants
                 then out == Outcome(s, Refused(UnsupportedGrant))
                 else s.clients[c].isPublic ==> out == Outcome(s, Refused(UnauthorizedClient))
  {
    hide AuthenticateClient, Proves, PasswordCandidate, Issue;
    forall c | 0 <= c < |s.clients| ensures AuthenticateClient(cfg, s, creds) == Some(c)
                                       <==> Proves(cfg, s.clients[c], creds) {
      AuthenticatedExactly(cfg, s, creds, c);
    }
  }

  /** A client that may take passwords asks for nobody's address: the attempt is recorded without a user. */
  lemma PasswordOfNobody(cfg: Config, s: State, creds: Creds, username: string, password: string, scope: string,
                         raw: string, c: nat)
    requires EmailsOk(cfg, s) && DistinctIds(s.clients)
    ensures username != "" && password != "" && TakesPasswords(cfg, s, creds, c)
            && (forall u: nat :: !Addresses(cfg, s, username, u)) ==>
              RefusedLogin(s, Step(cfg, s, PasswordEvent(creds, username, password, scope, raw)), c, None,
                           InvalidCredentials, InvalidGrant)
  {
    TakesExactly(cfg, s, creds, c);
    var found := FindUser(s.users, Normal(cfg.lower, username));
    hide AuthenticateClient, TakesPasswords, Addresses, Normal, FindUser, Issue;
    if found.Some? {
      AddressFinds(cfg, s, username, found.value);
    }
  }

  /** What the attempt at the password of `u` comes to. */
  predicate PasswordAnswer(cfg: Config, s: State, out: Outcome, password: string, scope: string, raw: string,
                           c: nat, u: nat)
    requires c < |s.clients| && u < |s.users|
  {
    var user := s.users[u];
    if !user.active then RefusedLogin(s, out, c, Some(u), InvalidCredentials, InvalidGrant)
    else if LockedNow(user, s.now) then RefusedLogin(s, out, c, Some(u), LockedOut, AccessDenied)
    else if !cfg.verify(password, user.passwordHash) then
      var counted := user.(failed := user.failed + 1, lockedUntil :=
          if user.failed + 1 >= 5 then Some(s.now + 15 * 60 * 1_000_000) else user.lockedUntil);
      RefusedLogin(s.(users := s.users[u := counted]), out, c, Some(u), InvalidCredentials, InvalidGrant)
    else if Fresh(cfg, s, raw) then Started(cfg, s, out, c, u, scope, raw, ByPassword, FromLogin(ByPassword))
    else out == Outcome(s, Refused(ServerError))
  }

  lemma GrantAnswers(cfg: Config, s: State, username: string, password: string, scope: string, raw: string, c: nat,
                     u: nat)
    requires c < |s.clients| && PasswordAllowed(cfg, s.clients[c])
    requires FindUser(s.users, Normal(cfg.lower, username)) == Some(u)
    ensures PasswordAnswer(cfg, s, GrantPassword(cfg, s, c, username, password, scope, raw), password, scope, raw, c, u)
  {
    FreshExactly(cfg, s, raw);
    hide Normal, FindUser, FindRefresh, Fresh, UserScope, PasswordAllowed;
  }

  /** A client that may take passwords asks for the address of `u`. An inactive or locked user is refused
      before the password is looked at; a wrong one counts, and locks for 15 minutes from the fifth on; the
      right one logs the user in. */
  lemma PasswordOf(cfg: Config, s: State, creds: Creds, username: string, password: string, scope: string,
                   raw: string, c: nat, u: nat)
    requires EmailsOk(cfg, s) && DistinctIds(s.clients)
    ensures c < |s.clients| && u < |s.users| && username != "" && password != ""
            && TakesPasswords(cfg, s, creds, c) && Addresses(cfg, s, username, u) ==>
              PasswordAnswer(cfg, s, Step(cfg, s, PasswordEvent(creds, username, password, scope, raw)), password,
                             scope, raw, c, u)
  {
    if c < |s.clients| && TakesPasswords(cfg, s, creds, c) && Addresses(cfg, s, username, u) {
      TakesExactly(cfg, s, creds, c);
      AddressFinds(cfg, s, username, u);
      GrantAnswers(cfg, s, username, password, scope, raw, c, u);
      hide AuthenticateClient, TakesPasswords, Addresses, Normal, FindUser, PasswordAnswer, GrantPassword;
    }
  }

  lemma PasswordTokensGrounds(cfg: Config, s: State, creds: Creds, username: string, password: string, scope: string,
                              raw: string)
    returns (c: nat, u: nat)
    requires EmailsOk(cfg, s) && DistinctIds(s.clients)
    ensures Step(cfg, s, PasswordEvent(creds, username, password, scope, raw)).reply.Tokens? ==>
              GoodLogin(cfg, s, creds, username, password, raw, c, u)
  {
    c, u := 0, 0;
    hide TakesPasswords, Addresses, Normal, FindUser, FindRefresh, Fresh, UserScope, EmailsOk, DistinctIds;
    if Step(cfg, s, PasswordEvent(creds, username, password, scope, raw)).reply.Tokens? {
      c := AuthenticateClient(cfg, s, creds).value;
      u := PasswordCandidate(cfg, s, c, username).value;
      TakesExactly(cfg, s, creds, c);
      AddressFinds(cfg, s, username, u);
      FreshExactly(cfg, s, raw);
      AddressedRow(cfg, s, username, u);
    }
  }

  lemma AddressedRow(cfg: Config, s: State, username: string, u: nat)
    ensures Addresses(cfg, s, username, u) ==> u < |s.users|
  {
  }

  /** A password request gets tokens if and only if a client that may take passwords asks for an active,
      unlocked user with the right password, and the new token is fresh. */
  lemma PasswordTokensExactly(cfg: Config, s: State, creds: Creds, username: string, password: string, scope: string,
                              raw: string)
    requires EmailsOk(cfg, s) && DistinctIds(s.clients)
    ensures var out := Step(cfg, s, PasswordEvent(creds, username, password, scope, raw));
            && (out.reply.Tokens? <==> exists c: nat, u: nat
                  :: GoodLogin(cfg, s, creds, username, password, raw, c, u))
            && forall c: nat, u: nat | GoodLogin(cfg, s, creds, username, password, raw, c, u)
                 :: c < |s.clients| && u < |s.users|
                    && Started(cfg, s, out, c, u, scope, raw, ByPassword, FromLogin(ByPassword))
  {
    var out := Step(cfg, s, PasswordEvent(creds, username, password, scope, raw));
    hide Started, TakesPasswords, Addresses, Fresh, Step, Proves;
    forall c: nat, u: nat | GoodLogin(cfg, s, creds, username, password, raw, c, u)
      ensures c < |s.clients| && u < |s.users|
      ensures Started(cfg, s, out, c, u, scope, raw, ByPassword, FromLogin(ByPassword))
      ensures out.reply.Tokens?
    {
      PasswordOf(cfg, s, creds, username, password, scope, raw, c, u);
      StartedTokens(cfg, s, out, c, u, scope, raw, ByPassword, FromLogin(ByPassword));
    }
    if out.reply.Tokens? {
      var c, u := PasswordTokensGrounds(cfg, s, creds, username, password, scope, raw);
      assert GoodLogin(cfg, s, creds, username, password, raw, c, u);
    }
  }

  // ---------------------------------------------------------------- clients for themselves

  /** A client that has proved itself gets a token for itself exactly if it may use the grant; no table changes. */
  lemma CredentialsOf(cfg: Config, s: State, creds: Creds, scope: string, c: nat)
    requires DistinctIds(s.clients)
    ensures c < |s.clients| && Proves(cfg, s.clients[c], creds) ==>
              var out, client := Step(cfg, s, TokenRequest(creds, ClientCredentials(scope))), s.clients[c];
              var granted := ClientScope(scope, client.scopes);
              if "client_credentials" !in client.grants then out == Outcome(s, Refused(UnsupportedGrant))
              else out == Outcome(s, Tokens(
                  Access(ClientSubject(client.clientId), granted, client.clientId, s.now / 1_000_000,
                         (s.now + cfg.accessLife) / 1_000_000),
                  None, granted, None))
  {
    AuthenticatedExactly(cfg, s, creds, c);
    hide AuthenticateClient, Proves, ClientScope;
  }

  // ---------------------------------------------------------------- refresh tokens

  /** Row `i` was rotated by client `c`: it is revoked and points to the new row, which is of the same user,
      and nothing but these two rows and one audit has changed. Failures and locks stay as they are. */
  predicate RotatedRow(cfg: Config, s: State, out: Outcome, c: nat, i: nat, u: nat, raw: string)
    requires c < |s.clients| && i < |s.refresh| && u < |s.users|
  {
    var client, row, n := s.clients[c], s.refresh[i], |s.refresh|;
    var granted := UserScope(row.scope, client.scopes, s.users[u].roles);
    && out.reply == Tokens(Access(UserSubject(u), granted, client.clientId, s.now / 1_000_000,
        (s.now + cfg.accessLife) / 1_000_000), Some(raw), granted, None)
    && out.state == s.(
         refresh := s.refresh[i := row.(revokedAt := Some(s.now), replacedBy := Some(n))]
             + [Refresh(cfg.sha(raw), Some(u), c, granted, s.now + cfg.refreshLife, None, None)],
         births := s.births + [Birth(s.now, FromRotation(i))],
         audits := s.audits + [Audit(Some(u), client.clientId, ByRefresh, true, Refreshed)])
  }

  /** What the presentation of the token of row `i` by client `c` comes to. */
  predicate RefreshAnswer(cfg: Config, s: State, out: Outcome, raw: string, c: nat, i: nat, u: nat)
    requires c < |s.clients| && i < |s.refresh| && u < |s.users|
  {
    var row := s.refresh[i];
    if "refresh_token" !in s.clients[c].grants then out == Outcome(s, Refused(UnsupportedGrant))
    else if row.revokedAt.Some? || row.expiresAt < s.now || row.client != c || !s.users[u].active
    then out == Outcome(s, Refused(InvalidGrant))
    else if Fresh(cfg, s, raw) then RotatedRow(cfg, s, out, c, i, u, raw)
    else out == Outcome(s, Refused(ServerError))
  }

  lemma RowOfToken(cfg: Config, s: State, token: string, i: nat)
    requires Forest(cfg, s)
    ensures FindRefresh(s.refresh, cfg.sha(token)) == Some(i)
       <==> i < |s.refresh| && s.refresh[i].hash == cfg.sha(token)
    ensures i < |s.refresh| ==> s.refresh[i].user.Some? && s.refresh[i].user.value < |s.users|
  {
    var found := FindRefresh(s.refresh, cfg.sha(token));
    if i < |s.refresh| {
      assert RowOk(cfg, s, i);
      if found.Some? {
        assert RowOk(cfg, s, found.value);
      }
    }
  }

  /** A client that has proved itself presents the token of row `i`; its user need be active but not unlocked. */
  lemma RefreshOf(cfg: Config, s: State, creds: Creds, token: string, raw: string, c: nat, i: nat, u: nat)
    requires Forest(cfg, s) && DistinctIds(s.clients)
    ensures c < |s.clients| && Proves(cfg, s.clients[c], creds) && token != ""
            && i < |s.refresh| && s.refresh[i].hash == cfg.sha(token) && s.refresh[i].user == Some(u) ==>
              u < |s.users| &&
              RefreshAnswer(cfg, s, Step(cfg, s, TokenRequest(creds, RefreshToken(token, raw))), raw, c, i, u)
  {
    AuthenticatedExactly(cfg, s, creds, c);
    RowOfToken(cfg, s, token, i);
    hide AuthenticateClient, Proves, UserScope, Forest, ScopeIntersect, DistinctIds;
    if c < |s.clients| && i < |s.refresh| && u < |s.users| && s.refresh[i].user == Some(u)
       && s.refresh[i].hash == cfg.sha(token) {
      RotationAnswers(cfg, s, token, raw, c, i, u);
      hide GrantRefresh, RefreshAnswer;
    }
  }

  lemma RotationAnswers(cfg: Config, s: State, token: string, raw: string, c: nat, i: nat, u: nat)
    requires c < |s.clients| && i < |s.refresh| && u < |s.users| && s.refresh[i].user == Some(u)
    requires FindRefresh(s.refresh, cfg.sha(token)) == Some(i)
    ensures RefreshAnswer(cfg, s, GrantRefresh(cfg, s, c, token, raw), raw, c, i, u)
  {
    FreshExactly(cfg, s, raw);
    hide Fresh, FindRefresh, UserScope, ScopeIntersect;
  }

  /** A token that is no stored row's changes nothing and is refused to every client that may use the grant. */
  lemma RefreshOfNothing(cfg: Config, s: State, creds: Creds, token: string, raw: string, c: nat)
    requires DistinctIds(s.clients)
    ensures c < |s.clients| && Proves(cfg, s.clients[c], creds)
            && (token == "" || forall i | 0 <= i < |s.refresh| :: s.refresh[i].hash != cfg.sha(token)) ==>
              Step(cfg, s, TokenRequest(creds, RefreshToken(token, raw)))
              == Outcome(s, Refused(if token == "" then InvalidRequest
                  else if "refresh_token" in s.clients[c].grants then InvalidGrant else UnsupportedGrant))
  {
    AuthenticatedExactly(cfg, s, creds, c);
    hide AuthenticateClient, Proves, UserScope, ScopeIntersect, DistinctIds;
  }

  // ---------------------------------------------------------------- authorization codes

  /** What the presentation of code `k`, of user `u`, by client `c` comes to. The code is spent as soon as its
      user is found to be good for it, which comes before the lock. */
  predicate CodeAnswer(cfg: Config, s: State, out: Outcome, redirectUri: string, verifier: string, raw: string,
                       c: nat, k: nat, u: nat)
    requires c < |s.clients| && k < |s.codes| && u < |s.users|
  {
    var code, client, user := s.codes[k], s.clients[c], s.users[u];
    var spent := s.(codes := s.codes[k := code.(consumedAt := Some(s.now))]);
    if "authorization_code" !in client.grants then out == Outcome(s, Refused(UnsupportedGrant))
    else if code.consumedAt.Some? || code.expiresAt < s.now || code.client != c || code.redirectUri != redirectUri
        || !RegexMatch(verifier)
    then out == Outcome(s, Refused(InvalidGrant))
    else if !Ascii(Trimmed(code.challenge)) then out == Outcome(s, Refused(ServerError))
    else if Trimmed(code.challenge) != Letters(cfg.sha(verifier)) || !user.active
        || (client.isPublic && user.kind != Customer)
    then out == Outcome(s, Refused(InvalidGrant))
    else if LockedNow(user, s.now) then out == Outcome(spent, Refused(AccessDenied))
    else if Fresh(cfg, s, raw) then
      Started(cfg, spent, out, c, u, code.scope, raw, ByCode, FromCode(k, redirectUri, verifier))
    else out == Outcome(s, Refused(ServerError))
  }

  /** The checks of the exchange, before the code is spent. */
  lemma GateAnswers(cfg: Config, s: State, redirectUri: string, verifier: string, c: nat, k: nat)
    requires c < |s.clients| && k < |s.codes| && s.codes[k].user < |s.users|
    ensures var code, user := s.codes[k], s.users[s.codes[k].user];
            ExchangeGate(cfg, s, c, k, redirectUri, verifier)
            == if code.consumedAt.Some? || code.expiresAt < s.now || code.client != c
                   || code.redirectUri != redirectUri || !RegexMatch(verifier) then Some(InvalidGrant)
               else if !Ascii(Trimmed(code.challenge)) then Some(ServerError)
               else if Trimmed(code.challenge) != Letters(cfg.sha(verifier)) || !user.active
                   || (s.clients[c].isPublic && user.kind != Customer) then Some(InvalidGrant)
               else None
  {
    AcceptedExactly(cfg.sha, verifier, s.codes[k].challenge);
    assert !RegexMatch("");
    hide VerifyS256, RegexMatch, Trimmed, Ascii, Letters;
  }

  lemma SpentAnswers(cfg: Config, s: State, text: string, redirectUri: string, verifier: string, raw: string,
                     c: nat, k: nat, u: nat)
    requires c < |s.clients| && k < |s.codes| && u < |s.users| && s.codes[k].user == u && s.users[u].active
    requires "authorization_code" in s.clients[c].grants && FindCode(s.codes, cfg.sha(text)) == Some(k)
    requires ExchangeGate(cfg, s, c, k, redirectUri, verifier) == None
    ensures var out := GrantCode(cfg, s, c, text, redirectUri, verifier, raw);
            var spent := s.(codes := s.codes[k := s.codes[k].(consumedAt := Some(s.now))]);
            if LockedNow(s.users[u], s.now) then out == Outcome(spent, Refused(AccessDenied))
            else if Fresh(cfg, s, raw) then
              Started(cfg, spent, out, c, u, s.codes[k].scope, raw, ByCode, FromCode(k, redirectUri, verifier))
            else out == Outcome(s, Refused(ServerError))
  {
    FreshExactly(cfg, s, raw);
    hide Fresh, FindRefresh, UserScope, FindCode, ExchangeGate;
  }

  lemma ExchangeAnswers(cfg: Config, s: State, text: string, redirectUri: string, verifier: string, raw: string,
                        c: nat, k: nat, u: nat)
    requires c < |s.clients| && k < |s.codes| && u < |s.users| && s.codes[k].user == u
    requires FindCode(s.codes, cfg.sha(text)) == Some(k)
    ensures CodeAnswer(cfg, s, GrantCode(cfg, s, c, text, redirectUri, verifier, raw), redirectUri, verifier, raw, c,
                       k, u)
  {
    GateAnswers(cfg, s, redirectUri, verifier, c, k);
    hide Fresh, FindCode, ExchangeGate, RegexMatch, Trimmed, Ascii, Letters, Started, LockedNow, Issue, IssueGate;
    if "authorization_code" in s.clients[c].grants && ExchangeGate(cfg, s, c, k, redirectUri, verifier) == None {
      SpentAnswers(cfg, s, text, redirectUri, verifier, raw, c, k, u);
    }
  }

  /** A client that has proved itself presents the text of code `k`. */
  lemma CodeOf(cfg: Config, s: State, creds: Creds, text: string, redirectUri: string, verifier: string, raw: string,
               c: nat, k: nat, u: nat)
    requires DistinctIds(s.clients) && forall i, j | 0 <= i < j < |s.codes| :: s.codes[i].hash != s.codes[j].hash
    ensures c < |s.clients| && Proves(cfg, s.clients[c], creds) && text != "" && redirectUri != ""
            && k < |s.codes| && s.codes[k].hash == cfg.sha(text) && s.codes[k].user == u && u < |s.users| ==>
              CodeAnswer(cfg, s, Step(cfg, s, TokenRequest(creds, AuthorizationCode(text, redirectUri, verifier, raw))),
                         redirectUri, verifier, raw, c, k, u)
  {
    AuthenticatedExactly(cfg, s, creds, c);
    var found := FindCode(s.codes, cfg.sha(text));
    hide AuthenticateClient, Proves, UserScope, DistinctIds;
    if c < |s.clients| && k < |s.codes| && u < |s.users| && s.codes[k].hash == cfg.sha(text) && s.codes[k].user == u {
      assert found == Some(k);
      ExchangeAnswers(cfg, s, text, redirectUri, verifier, raw, c, k, u);
      hide GrantCode, CodeAnswer, FindCode;
    }
  }

  // ---------------------------------------------------------------- wrong passwords

  /** The checks that the lockout counts are exactly the password requests for an active, unlocked user, by a
      client that may take passwords, with a wrong password. */
  lemma WrongCheckExactly(cfg: Config, s: State, creds: Creds, username: string, password: string, scope: string,
                          raw: string, u: nat)
    requires EmailsOk(cfg, s) && DistinctIds(s.clients)
    ensures Lockout.WrongCheck(cfg, s, PasswordEvent(creds, username, password, scope, raw), u)
       <==> && username != "" && password != "" && u < |s.users| && Addresses(cfg, s, username, u)
            && s.users[u].active && !LockedNow(s.users[u], s.now) && !cfg.verify(password, s.users[u].passwordHash)
            && exists c: nat :: TakesPasswords(cfg, s, creds, c)
  {
    AddressFinds(cfg, s, username, u);
    forall c: nat ensures TakesPasswords(cfg, s, creds, c) <==>
        c < |s.clients| && AuthenticateClient(cfg, s, creds) == Some(c) && PasswordAllowed(cfg, s.clients[c])
    {
      TakesExactly(cfg, s, creds, c);
    }
    hide AuthenticateClient, TakesPasswords, Addresses, Normal, FindUser, PasswordAllowed, DistinctIds, EmailsOk;
  }
}
