/** What minted tokens can do: which allowed lists bound their scope, and which lists never yield a
    token that passes the admin API's check. */
module AdminGate {
  import opened Text
  import opened Scopes
  import opened Store
  import opened Steps
  import opened Machine
  import opened Effects
  import opened Clock
  import TelegramWidget

  /** `require_admin_scope`: any token of this server that decodes is looked at; one without a scope
      claim counts as having none. */
  predicate PassesAdmin(claims: Claims, now: nat) {
    Decodes(claims, now) && claims.Access? && ADMIN in Split(claims.scope)
  }

  /** The list bounds every scope that is granted to such a subject under it; `UserScopeWithinIff` and
      `ClientScopeWithinIff` show that these conditions are exact. */
  predicate BoundingList(sub: Subject, allowed: seq<string>) {
    if sub.UserSubject? then DefaultWithin(allowed) else ClientDefaultWithin(allowed)
  }

  /** No such subject is ever granted `admin` under the list; `UserAdminExactly` and `ClientAdminExactly`
      show that these conditions are exact. */
  predicate NoAdmin(sub: Subject, allowed: seq<string>) {
    if sub.UserSubject? then NoAdminForUsers(allowed) else NoAdminForClients(allowed)
  }

  /** The scope is what such a subject gets who asks for `asked` under the list. */
  predicate Granted(sub: Subject, allowed: seq<string>, scope: string, asked: string, roles: set<string>) {
    if sub.UserSubject? then scope == UserScope(asked, allowed, roles)
    else scope == ClientScope(asked, allowed) || scope == ScopeIntersect(asked, allowed)
  }

  /** Client `c` of `s` is the one the access token names. */
  predicate MintedFor(s: State, c: nat, claims: Claims) {
    claims.Access? && c < |s.clients| && s.clients[c].clientId == claims.clientId
  }

  /** The list of that client bounds the scope. */
  predicate ScopeBounded(s: State, c: nat, claims: Claims) {
    && MintedFor(s, c, claims)
    && (BoundingList(claims.sub, s.clients[c].scopes) ==> Within(Split(claims.scope), s.clients[c].scopes))
  }

  /** The reply tells the true scope of its access token, which was granted under the client's list; a
      cookie beside it is a browser-login token. */
  predicate GrantedReply(s: State, c: nat, asked: string, roles: set<string>, reply: Reply)
    requires reply.Tokens?
  {
    var claims := reply.access;
    && MintedFor(s, c, claims)
    && Granted(claims.sub, s.clients[c].scopes, claims.scope, asked, roles) && claims.scope == reply.scope
    && (reply.cookie.Some? ==> reply.cookie.value.BrowserLogin?)
  }

  lemma TokenGranted(cfg: Config, s: State, creds: Creds, grant: Grant)
    returns (c: nat, asked: string, roles: set<string>)
    ensures var reply := Token(cfg, s, creds, grant).reply;
            reply.Tokens? ==> GrantedReply(s, c, asked, roles, reply) && reply.cookie == None
  {
    hide UserScope, ClientScope, ScopeIntersect;
    c, asked, roles := 0, "", {};
    if !Token(cfg, s, creds, grant).reply.Tokens? {
      return;
    }
    c := AuthenticateClient(cfg, s, creds).value;
    match grant {
      case ClientCredentials(scope) =>
        asked := scope;
      case Password(username, _, scope, _) =>
        asked, roles := scope, s.users[PasswordCandidate(cfg, s, c, username).value].roles;
      case RefreshToken(token, _) =>
        var row := s.refresh[FindRefresh(s.refresh, cfg.sha(token)).value];
        asked := row.scope;
        if row.user.Some? {
          roles := s.users[row.user.value].roles;
        }
      case AuthorizationCode(code, redirectUri, verifier, raw) =>
        CodeOutcome(cfg, s, c, code, redirectUri, verifier, raw);
        var k := FindCode(s.codes, cfg.sha(code)).value;
        asked, roles := s.codes[k].scope, s.users[s.codes[k].user].roles;
    }
  }

  lemma FederatedGranted(cfg: Config, s: State, provider: Provider, subject: string, email: string,
                         clientId: string, scope: string, raw: string, passwordHash: string)
    returns (c: nat, roles: set<string>)
    ensures var reply := FederatedLogin(cfg, s, provider, subject, email, clientId, scope, raw, passwordHash).reply;
            reply.Tokens? ==> GrantedReply(s, c, scope, roles, reply)
  {
    hide UserScope;
    c, roles := 0, {};
    if !FederatedLogin(cfg, s, provider, subject, email, clientId, scope, raw, passwordHash).reply.Tokens? {
      return;
    }
    c := AuthenticateClient(cfg, s, Creds(clientId, "", "", "")).value;
    var r := Resolve(s, provider, subject, email, passwordHash);
    ResolveKeepsTokens(s, provider, subject, email, passwordHash);
    roles := r.state.users[r.user].roles;
  }

  /** Every access token was granted under its client's list at that moment. */
  lemma MintedGranted(cfg: Config, s: State, e: Event) returns (c: nat, asked: string, roles: set<string>)
    ensures var reply := Step(cfg, s, e).reply;
            reply.Tokens? ==> GrantedReply(s, c, asked, roles, reply)
  {
    hide Token, Authorize, FederatedLogin, TelegramWidget.Verdict, Bootstrap, KnownPrefix, WidgetPayload, Granted;
    c, asked, roles := 0, "", {};
    match e {
      case AuthorizeRequested(r) => AuthorizeOnlyAddsCodes(cfg, s, r);
      case TokenRequest(creds, grant) => c, asked, roles := TokenGranted(cfg, s, creds, grant);
      case TelegramRequested(r) =>
        asked := r.scope;
        c, roles := FederatedGranted(cfg, s, Telegram, Decimal(r.id), SyntheticEmail(r.id), r.clientId, r.scope, r.raw,
            r.passwordHash);
      case GoogleRequested(r) =>
        asked := r.scope;
        if r.idToken.Some? {
          c, roles := FederatedGranted(cfg, s, Google, r.idToken.value.0, Normal(cfg.lower, r.idToken.value.1),
                                       r.clientId, r.scope, r.raw, r.passwordHash);
        }
      case _ =>
    }
  }

  lemma GrantedBounds(sub: Subject, allowed: seq<string>, scope: string, asked: string, roles: set<string>)
    requires Granted(sub, allowed, scope, asked, roles)
    ensures BoundingList(sub, allowed) ==> Within(Split(scope), allowed)
    ensures NoAdmin(sub, allowed) ==> ADMIN !in Split(scope)
  {
    UserScopeWithinIff(allowed);
    UserAdminExactly(allowed);
    ClientScopeWithinIff(allowed);
    IntersectWithinIff(allowed);
    ClientAdminExactly(allowed);
    hide UserScope, ClientScope, ScopeIntersect, Split, Within, DefaultWithin, NoAdminForUsers, NoAdminForClients;
    if ClientDefaultWithin(allowed) {
      ClientDefaultCoversFallback(allowed);
    }
    if NoAdminForClients(allowed) {
      IntersectNeverAdmin(asked, allowed);
    }
  }

  /** Every access token ever minted is bounded by its client's list at that moment, and tells the
      client its true scope; a cookie that comes with it is a browser-login token. */
  lemma MintedBounded(cfg: Config, s: State, e: Event) returns (c: nat)
    ensures var reply := Step(cfg, s, e).reply;
            reply.Tokens? ==>
              && ScopeBounded(s, c, reply.access) && reply.access.scope == reply.scope
              && (reply.cookie.Some? ==> reply.cookie.value.BrowserLogin?)
  {
    var asked, roles;
    c, asked, roles := MintedGranted(cfg, s, e);
    hide Step, BoundingList, Granted, NoAdmin, Split, Decodes, ADMIN;
    var reply := Step(cfg, s, e).reply;
    if reply.Tokens? {
      GrantedBounds(reply.access.sub, s.clients[c].scopes, reply.scope, asked, roles);
    }
  }

  // ---------------------------------------------------------------- over runs

  /** The tokens signed in a run: access tokens and browser-login cookies. */
  function Minted(cfg: Config, s: State, es: seq<Event>): set<Claims>
    decreases |es|
  {
    if es == [] then {} else
      var reply := Step(cfg, s, es[0]).reply;
      (if reply.Tokens? then {reply.access} + (if reply.cookie.Some? then {reply.cookie.value} else {}) else {})
        + Minted(cfg, Next(cfg, s, es[0]), es[1..])
  }

  /** The list of client `c` never yields `admin` for such a subject. */
  predicate LacksAdmin(s: State, c: nat, sub: Subject) {
    c < |s.clients| && NoAdmin(sub, s.clients[c].scopes)
  }

  lemma GrantFails(claims: Claims, now: nat, allowed: seq<string>, asked: string, roles: set<string>)
    requires claims.Access? && Granted(claims.sub, allowed, claims.scope, asked, roles)
    ensures NoAdmin(claims.sub, allowed) ==> !PassesAdmin(claims, now)
  {
    hide BoundingList, Granted, NoAdmin, Split, Decodes, ADMIN;
    GrantedBounds(claims.sub, allowed, claims.scope, asked, roles);
  }

  /** A token minted at a moment when its client's list cannot yield `admin` never passes the admin check, at
      whatever time it is presented and whatever the list has become; nor does any browser-login token. */
  lemma MintWithoutAdmin(cfg: Config, s: State, e: Event, now: nat) returns (c: nat)
    ensures var reply := Step(cfg, s, e).reply;
            reply.Tokens? ==>
              && MintedFor(s, c, reply.access)
              && (LacksAdmin(s, c, reply.access.sub) ==> !PassesAdmin(reply.access, now))
              && (reply.cookie.Some? ==> !PassesAdmin(reply.cookie.value, now))
  {
    hide Step, BoundingList, Granted, NoAdmin, Split, Decodes;
    var asked, roles;
    c, asked, roles := MintedGranted(cfg, s, e);
    var reply := Step(cfg, s, e).reply;
    if reply.Tokens? {
      GrantFails(reply.access, now, s.clients[c].scopes, asked, roles);
    }
  }

  lemma JustMinted(cfg: Config, now: nat, sub: Subject, scope: string, clientId: string)
    requires cfg.accessLife >= SECOND
    ensures var claims := MintAccess(cfg, now, sub, scope, clientId);
            Decodes(claims, now) && claims.Access? && claims.scope == scope
  {
    assert (now + cfg.accessLife) / SECOND >= now / SECOND + 1;
  }

  /** The condition is needed: a password login that asks for no scope, of a user without any role, yields
      a token that passes the check, if the default grant under the list spells `admin` without listing it. */
  lemma DefaultPasses(cfg: Config, s: State, creds: Creds, username: string, password: string, raw: string)
    requires cfg.accessLife >= SECOND
    ensures var client := AuthenticateClient(cfg, s, creds);
            var reply := Token(cfg, s, creds, Password(username, password, "", raw)).reply;
            reply.Tokens? ==>
              var allowed := s.clients[client.value].scopes;
              ADMIN !in allowed && !NoAdminForUsers(allowed) ==> PassesAdmin(reply.access, s.now)
  {
    hide UserScope, Split, NoAdminForUsers, Decodes, AuthenticateClient;
    var reply := Token(cfg, s, creds, Password(username, password, "", raw)).reply;
    if reply.Tokens? {
      var c := AuthenticateClient(cfg, s, creds).value;
      var u := PasswordCandidate(cfg, s, c, username).value;
      var allowed := s.clients[c].scopes;
      UserGetsAdmin(allowed, s.users[u].roles);
      JustMinted(cfg, s.now, UserSubject(u), UserScope("", allowed, s.users[u].roles), s.clients[c].clientId);
    }
  }

  /** Step `i` of the run minted these claims, for client `c` of the state before it. */
  predicate MintedAt(cfg: Config, s: State, es: seq<Event>, i: nat, c: nat, claims: Claims) {
    && i < |es|
    && var m := Run(cfg, s, es[..i]);
    && var reply := Step(cfg, m, es[i]).reply;
    && reply.Tokens? && reply.access == claims && MintedFor(m, c, claims)
  }

  /** Any token of a run that ever passes the admin check was minted at a step at which its client's list
      could yield `admin`: it was listed, or spelled by an entry granted by default. */
  lemma {:induction false} AdminNeedsAllowedScope(cfg: Config, s: State, es: seq<Event>, claims: Claims, now: nat)
    returns (i: nat, c: nat)
    requires claims in Minted(cfg, s, es)
    ensures PassesAdmin(claims, now) ==>
              MintedAt(cfg, s, es, i, c, claims) && !LacksAdmin(Run(cfg, s, es[..i]), c, claims.sub)
    decreases |es|
  {
    hide Step;
    var reply, m := Step(cfg, s, es[0]).reply, Next(cfg, s, es[0]);
    if claims in Minted(cfg, m, es[1..]) {
      var j, d := AdminNeedsAllowedScope(cfg, m, es[1..], claims, now);
      i, c := j + 1, d;
      if j < |es| - 1 {
        assert es[..i][0] == es[0] && es[..i][1..] == es[1..][..j];
      }
    } else {
      i := 0;
      c := MintWithoutAdmin(cfg, s, es[0], now);
      assert es[..0] == [];
    }
  }
}
