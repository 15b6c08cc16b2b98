/** What a server can do right after it has been set up: the accounts and clients that bootstrap and the admin
    API make are good for what they are meant for. */
module FreshServer {
  import opened Text
  import opened Scopes
  import opened Store
  import opened Steps
  import opened Machine
  import opened Emails
  import opened Clients
  import opened Answers
  import opened GrantedScopes
  import AdminGate

  // ---------------------------------------------------------------- bootstrap

  predicate NoClient(s: State, id: string) { forall c | 0 <= c < |s.clients| :: s.clients[c].clientId != id }

  predicate NoAddress(cfg: Config, s: State, email: string) {
    forall u | 0 <= u < |s.users| :: s.users[u].email != Lower(cfg.lower, Strip(email))
  }

  /** The client and the administrator of the deployment, as they are made when they are missing. */
  predicate OperatorsMade(cfg: Config, t: State, c: nat, u: nat) {
    && c < |t.clients| && u < |t.users|
    && t.clients[c] == Client(cfg.bootClientId, cfg.bootSecretHash, false, ["http://127.0.0.1/callback"],
         ["authorization_code", "refresh_token", "client_credentials", "password"],
         ["openid", "profile", "email", "admin"], true)
    && t.users[u] == User(Lower(cfg.lower, Strip(cfg.adminEmail)), Staff, cfg.adminHash, true, None, 0, {"admin"})
  }

  lemma RestartBoots(cfg: Config, s: State)
    ensures Next(cfg, s, Restarted) == Bootstrap(cfg, s)
  {
    hide Bootstrap, Steps.Token, Authorize, TelegramLogin, GoogleLogin;
  }

  lemma BootClientMade(cfg: Config, s: State)
    requires NoClient(s, cfg.bootClientId) && cfg.bootClientId != cfg.publicClientId
    ensures var t := Bootstrap(cfg, s);
            |t.clients| > |s.clients| && t.clients[|s.clients|] == BootClient(cfg)
  {
    hide Normal, Merged, MarketUris, BootClient, MarketClient;
    var a := s.(roleNames := s.roleNames + {"admin", "user"});
    var b := EnsureBootClient(cfg, a);
    assert b.clients == s.clients + [BootClient(cfg)];
    MadeFor(cfg);
    assert Bootstrap(cfg, s).clients == EnsureMarketClient(cfg, b).clients;
  }

  lemma MadeFor(cfg: Config)
    ensures BootClient(cfg).clientId == cfg.bootClientId
  {
  }

  lemma AdminMade(cfg: Config, s: State)
    requires NoAddress(cfg, s, cfg.adminEmail) && cfg.adminEmail != "" && cfg.adminPassword != ""
    ensures var t := Bootstrap(cfg, s);
            && t.users == s.users + [User(Lower(cfg.lower, Strip(cfg.adminEmail)), Staff, cfg.adminHash, true, None, 0,
                {"admin"})]
            && t.refresh == s.refresh && t.now == s.now
  {
    hide Lower, Strip, Merged, MarketUris, FindClient, FindUser;
    var a := s.(roleNames := s.roleNames + {"admin", "user"});
    var m := EnsureMarketClient(cfg, EnsureBootClient(cfg, a));
    assert m.users == s.users;
    assert FindUser(m.users, Normal(cfg.lower, cfg.adminEmail)).None?;
  }

  lemma BootstrapMakes(cfg: Config, s: State) returns (c: nat, u: nat)
    requires NoClient(s, cfg.bootClientId) && NoAddress(cfg, s, cfg.adminEmail)
    requires cfg.bootClientId != cfg.publicClientId && cfg.adminEmail != "" && cfg.adminPassword != ""
    ensures OperatorsMade(cfg, Next(cfg, s, Restarted), c, u)
    ensures Next(cfg, s, Restarted).refresh == s.refresh && Next(cfg, s, Restarted).now == s.now
  {
    c, u := |s.clients|, |s.users|;
    hide Lower, Strip, Next, Bootstrap, NoClient, NoAddress;
    RestartBoots(cfg, s);
    BootClientMade(cfg, s);
    AdminMade(cfg, s);
  }

  lemma AdminIsGranted(requested: string, allowed: seq<string>, roles: set<string>)
    requires "admin" in allowed && "admin" in roles
    ensures "admin" in Split(UserScope(requested, allowed, roles))
  {
    UserScopeExactly("admin", requested, allowed, roles);
    AdminIsToken();
    SplitToken("admin");
    assert GrantedEntry("admin", requested, allowed, roles);
  }

  /** On a server whose operators are not yet there, a start makes them, and the administrator can log in at
      once, with the credentials of the deployment, and gets a token that passes the admin check. */
  lemma {:induction false} AdminLogsIn(cfg: Config, s: State, secret: string, username: string, scope: string,
                                       raw: string)
    requires CaseTableOk(cfg.lower) && EmailsOk(cfg, s) && DistinctIds(s.clients)
    requires NoClient(s, cfg.bootClientId) && NoAddress(cfg, s, cfg.adminEmail)
    requires cfg.bootClientId != cfg.publicClientId && cfg.bootClientId != ""
    requires secret != "" && cfg.bootSecretHash != "" && cfg.verify(secret, cfg.bootSecretHash)
    requires cfg.adminEmail != "" && cfg.adminPassword != "" && cfg.verify(cfg.adminPassword, cfg.adminHash)
    requires username != "" && Lower(cfg.lower, Strip(username)) == Lower(cfg.lower, Strip(cfg.adminEmail))
    requires cfg.passwordEnabled && cfg.accessLife >= 1_000_000 && Fresh(cfg, s, raw)
    ensures var t := Next(cfg, s, Restarted);
            var out := Step(cfg, t, PasswordEvent(Creds(cfg.bootClientId, secret, "", ""), username,
                cfg.adminPassword, scope, raw));
            out.reply.Tokens? && AdminGate.PassesAdmin(out.reply.access, t.now)
  {
    var t, creds := Next(cfg, s, Restarted), Creds(cfg.bootClientId, secret, "", "");
    var c, u := BootstrapMakes(cfg, s);
    StepIds(cfg, s, Restarted);
    var emails := StepEmails(cfg, s, Restarted);
    EmailsOkEffect(cfg, s, t, emails);
    MadeAreGood(cfg, t, secret, username, raw, c, u);
    PasswordTokensExactly(cfg, t, creds, username, cfg.adminPassword, scope, raw);
    AdminIsGranted(scope, t.clients[c].scopes, t.users[u].roles);
    var out := Step(cfg, t, PasswordEvent(creds, username, cfg.adminPassword, scope, raw));
    StartedPasses(cfg, t, out, c, u, scope, raw);
    hide *;
  }

  lemma MadeAreGood(cfg: Config, t: State, secret: string, username: string, raw: string, c: nat, u: nat)
    requires OperatorsMade(cfg, t, c, u) && cfg.bootClientId != ""
    requires secret != "" && cfg.bootSecretHash != "" && cfg.verify(secret, cfg.bootSecretHash)
    requires cfg.adminPassword != "" && cfg.verify(cfg.adminPassword, cfg.adminHash)
    requires username != "" && Lower(cfg.lower, Strip(username)) == Lower(cfg.lower, Strip(cfg.adminEmail))
    requires cfg.passwordEnabled && Fresh(cfg, t, raw)
    ensures GoodLogin(cfg, t, Creds(cfg.bootClientId, secret, "", ""), username, cfg.adminPassword, raw, c, u)
    ensures "admin" in t.clients[c].scopes && "admin" in t.users[u].roles
  {
    hide Lower, Strip, Fresh;
  }

  lemma StartedPasses(cfg: Config, t: State, out: Outcome, c: nat, u: nat, scope: string, raw: string)
    requires c < |t.clients| && u < |t.users| && cfg.accessLife >= 1_000_000
    requires "admin" in Split(UserScope(scope, t.clients[c].scopes, t.users[u].roles))
    ensures Started(cfg, t, out, c, u, scope, raw, ByPassword, FromLogin(ByPassword)) ==>
              out.reply.Tokens? && AdminGate.PassesAdmin(out.reply.access, t.now)
  {
    hide Split, UserScope;
    assert (t.now + cfg.accessLife) / 1_000_000 >= t.now / 1_000_000 + 1;
  }

  /** A start also makes the public client of the storefront when it is missing: with the redirect URIs of the
      deployment, for codes and refresh tokens, and for the standard scopes. */
  lemma PublicClientMade(cfg: Config, s: State)
    requires NoClient(s, cfg.publicClientId) && cfg.bootClientId != cfg.publicClientId
    ensures var t := Next(cfg, s, Restarted);
            var uris := if Split(cfg.publicUris) == [] then ["http://127.0.0.1/callback"] else Split(cfg.publicUris);
            && t.clients != []
            && t.clients[|t.clients| - 1] == Client(cfg.publicClientId, "", true, uris,
                 ["authorization_code", "refresh_token"], ["openid", "profile", "email"], false)
  {
    hide Lower, Strip, Merged, Split, Steps.Token, Authorize, TelegramLogin, GoogleLogin;
    var a := s.(roleNames := s.roleNames + {"admin", "user"});
    var b := EnsureBootClient(cfg, a);
    assert FindClient(b.clients, cfg.publicClientId).None?;
    assert Next(cfg, s, Restarted).clients == EnsureMarketClient(cfg, b).clients;
  }

  // ---------------------------------------------------------------- accounts and clients of the admin API

  /** A user is created exactly if the address is free, and can then log in at once with any spelling of it. */
  lemma CreatedUserLogsIn(cfg: Config, s: State, email: string, kind: Kind, hash: string, creds: Creds,
                          username: string, password: string, scope: string, raw: string, c: nat)
    requires CaseTableOk(cfg.lower) && EmailsOk(cfg, s) && DistinctIds(s.clients)
    ensures var out, n := Step(cfg, s, UserCreated(email, kind, hash)), |s.users|;
            var t := out.state;
            if !NoAddress(cfg, s, email) then out == Outcome(s, Refused(EmailExists))
            else
              && out == Outcome(s.(users := s.users + [User(Lower(cfg.lower, Strip(email)), kind, hash, true, None, 0,
                  if "user" in s.roleNames then {"user"} else {})]), Done)
              && (c < |t.clients| && username != "" && password != "" && TakesPasswords(cfg, t, creds, c)
                  && Lower(cfg.lower, Strip(username)) == Lower(cfg.lower, Strip(email))
                  && cfg.verify(password, hash) && Fresh(cfg, s, raw) ==>
                    Started(cfg, t, Step(cfg, t, PasswordEvent(creds, username, password, scope, raw)), c, n, scope,
                            raw, ByPassword, FromLogin(ByPassword)))
  {
    var e := UserCreated(email, kind, hash);
    CreatedRow(cfg, s, email, kind, hash);
    if NoAddress(cfg, s, email) {
      var t := Next(cfg, s, e);
      StepIds(cfg, s, e);
      var emails := StepEmails(cfg, s, e);
      EmailsOkEffect(cfg, s, t, emails);
      PasswordTokensExactly(cfg, t, creds, username, password, scope, raw);
      hide Step, Started, TakesPasswords, EmailsOk, DistinctIds, Lower, Strip, NoAddress, CaseTableOk;
      if c < |t.clients| && username != "" && password != "" && TakesPasswords(cfg, t, creds, c)
         && Lower(cfg.lower, Strip(username)) == Lower(cfg.lower, Strip(email))
         && cfg.verify(password, hash) && Fresh(cfg, s, raw) {
        assert GoodLogin(cfg, t, creds, username, password, raw, c, |s.users|);
      }
    }
  }

  lemma CreatedRow(cfg: Config, s: State, email: string, kind: Kind, hash: string)
    ensures Step(cfg, s, UserCreated(email, kind, hash))
         == if !NoAddress(cfg, s, email) then Outcome(s, Refused(EmailExists))
            else Outcome(s.(users := s.users + [User(Lower(cfg.lower, Strip(email)), kind, hash, true, None, 0,
                if "user" in s.roleNames then {"user"} else {})]), Done)
  {
    var found := FindUser(s.users, Normal(cfg.lower, email));
    hide Lower, Strip, Steps.Token, Authorize, TelegramLogin, GoogleLogin, Bootstrap, FindUser;
  }

  /** A confidential client is created exactly if its identifier is free; one that is given no lists may do
      everything, and gets a token for itself with the secret that was stored, for the least standard scope. */
  lemma CreatedClientGetsToken(cfg: Config, s: State, client: Client, secret: string)
    requires DistinctIds(s.clients)
    ensures var out, n, id := Step(cfg, s, ClientCreated(client)), |s.clients|, Strip(client.clientId);
            var t := out.state;
            if !NoClient(s, id) then out == Outcome(s, Refused(ClientIdExists))
            else
              && out.reply == Done && t == s.(clients := t.clients) && |t.clients| == n + 1
              && t.clients[..n] == s.clients && t.clients[n].clientId == id
              && t.clients[n].isPublic == client.isPublic && t.clients[n].redirectUris == client.redirectUris
              && t.clients[n].allowPassword == client.allowPassword
              && (client.grants != [] ==> t.clients[n].grants == client.grants)
              && (client.scopes != [] ==> t.clients[n].scopes == client.scopes)
              && (client.isPublic ==> t.clients[n].secretHash == "")
              && (id != "" && !client.isPublic && client.grants == [] && client.scopes == []
                  && secret != "" && client.secretHash != "" && cfg.verify(secret, client.secretHash) ==>
                    var reply := Step(cfg, t, TokenRequest(Creds(id, secret, "", ""), ClientCredentials(""))).reply;
                    reply.Tokens? && reply.scope == "email")
  {
    var e, id := ClientCreated(client), Strip(client.clientId);
    CreatedClientRow(cfg, s, client);
    StepIds(cfg, s, e);
    if NoClient(s, id) {
      var t, n := Next(cfg, s, e), |s.clients|;
      CredentialsOf(cfg, t, Creds(id, secret, "", ""), "", n);
      LeastStandard();
      hide Step, ClientScope, Strip, DistinctIds;
    }
  }

  lemma CreatedClientRow(cfg: Config, s: State, client: Client)
    ensures var id := Strip(client.clientId);
            Step(cfg, s, ClientCreated(client))
            == if !NoClient(s, id) then Outcome(s, Refused(ClientIdExists))
               else Outcome(s.(clients := s.clients + [Client(id, if client.isPublic then "" else client.secretHash,
                   client.isPublic, client.redirectUris,
                   if client.grants == [] then ["authorization_code", "refresh_token", "client_credentials", "password"]
                   else client.grants,
                   if client.scopes == [] then ["openid", "profile", "email"] else client.scopes,
                   client.allowPassword)]), Done)
  {
    var found := FindClient(s.clients, Strip(client.clientId));
    hide Strip, Steps.Token, Authorize, TelegramLogin, GoogleLogin, Bootstrap, FindClient;
  }

  lemma LeastStandard()
    ensures ClientScope("", ["openid", "profile", "email"]) == "email"
  {
    var allowed := ["openid", "profile", "email"];
    NothingSplit();
    ClientScopeExactly("", allowed);
    EmailIsLeast(ClientScope("", allowed));
    hide ClientScope, Leq;
    assert allowed[2] in allowed && "" !in allowed;
  }

  lemma EmailIsLeast(scope: string)
    ensures scope in ["openid", "profile", "email"] && Leq(scope, "email") ==> scope == "email"
  {
    assert "email"[0] == 'e' && "openid"[0] == 'o' && "profile"[0] == 'p';
  }

  /** A patch that gives a user a new address and password, and makes it active, is honoured exactly if the
      address is its own or free; the user can then log in with both, unless locked. */
  lemma PatchedUserLogsIn(cfg: Config, s: State, u: nat, email: string, hash: string, creds: Creds,
                          username: string, password: string, scope: string, raw: string, c: nat)
    requires CaseTableOk(cfg.lower) && EmailsOk(cfg, s) && DistinctIds(s.clients) && u < |s.users|
    ensures var e := UserPatched(u, UserPatch(Some(email), Some(true), None, Some(hash)));
            var out, was := Step(cfg, s, e), s.users[u];
            var t, address := out.state, Lower(cfg.lower, Strip(email));
            if exists v :: 0 <= v < |s.users| && v != u && s.users[v].email == address
            then out == Outcome(s, Refused(EmailExists))
            else
              && out == Outcome(s.(users := s.users[u := was.(email := address, active := true,
                  passwordHash := hash)]), Done)
              && (c < |t.clients| && username != "" && password != "" && TakesPasswords(cfg, t, creds, c)
                  && Lower(cfg.lower, Strip(username)) == address && !LockedNow(was, s.now)
                  && cfg.verify(password, hash) && Fresh(cfg, s, raw) ==>
                    Started(cfg, t, Step(cfg, t, PasswordEvent(creds, username, password, scope, raw)), c, u, scope,
                            raw, ByPassword, FromLogin(ByPassword)))
  {
    var e := UserPatched(u, UserPatch(Some(email), Some(true), None, Some(hash)));
    PatchedRowOf(cfg, s, u, email, hash);
    var t, address := Next(cfg, s, e), Lower(cfg.lower, Strip(email));
    StepIds(cfg, s, e);
    var emails := StepEmails(cfg, s, e);
    EmailsOkEffect(cfg, s, t, emails);
    hide Step, Started, TakesPasswords, EmailsOk, DistinctIds, Lower, Strip, CaseTableOk, GoodLogin;
    PasswordTokensExactly(cfg, t, creds, username, password, scope, raw);
    if !exists v :: 0 <= v < |s.users| && v != u && s.users[v].email == address {
      if c < |t.clients| && username != "" && password != "" && TakesPasswords(cfg, t, creds, c)
         && Lower(cfg.lower, Strip(username)) == address && !LockedNow(s.users[u], s.now)
         && cfg.verify(password, hash) && Fresh(cfg, s, raw) {
        RowIsGood(cfg, t, creds, username, password, raw, c, u);
      }
    }
  }

  lemma RowIsGood(cfg: Config, t: State, creds: Creds, username: string, password: string, raw: string, c: nat, u: nat)
    requires c < |t.clients| && u < |t.users| && username != "" && password != ""
    requires TakesPasswords(cfg, t, creds, c) && t.users[u].email == Lower(cfg.lower, Strip(username))
    requires t.users[u].active && !LockedNow(t.users[u], t.now) && cfg.verify(password, t.users[u].passwordHash)
    requires Fresh(cfg, t, raw)
    ensures GoodLogin(cfg, t, creds, username, password, raw, c, u)
  {
    hide TakesPasswords, Lower, Strip, LockedNow, Fresh;
  }

  lemma PatchedRowOf(cfg: Config, s: State, u: nat, email: string, hash: string)
    requires EmailsOk(cfg, s) && u < |s.users|
    ensures var address := Lower(cfg.lower, Strip(email));
            Step(cfg, s, UserPatched(u, UserPatch(Some(email), Some(true), None, Some(hash))))
            == if exists v :: 0 <= v < |s.users| && v != u && s.users[v].email == address
               then Outcome(s, Refused(EmailExists))
               else Outcome(s.(users := s.users[u := s.users[u].(email := address, active := true,
                   passwordHash := hash)]), Done)
  {
    var found := FindUser(s.users, Normal(cfg.lower, email));
    hide Lower, Strip, Steps.Token, Authorize, TelegramLogin, GoogleLogin, Bootstrap, FindUser;
  }
}
