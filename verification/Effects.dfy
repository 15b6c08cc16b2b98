/** What one event can do to refresh rows and audits, whatever the request: the five shapes that the
    run properties of the token tables are proved over. */
module Effects {
  import opened Text
  import opened Scopes
  import opened Store
  import opened Steps
  import opened Machine
  import TelegramWidget
  import Urls

  datatype Effect =
    | Quiet
    | Audited(audit: Audit)                                  // a failed attempt is recorded
    | Issues(row: Refresh, birth: Birth, audit: Audit)       // a login starts a chain
    | Rotates(i: nat, row: Refresh, audit: Audit)            // row i is replaced
    | Revokes(i: nat)

  /** The login method under which a birth is audited. */
  function MethodOf(origin: Origin): LoginMethod {
    match origin
    case FromLogin(m) => m
    case FromCode(_, _, _) => ByCode
    case FromRotation(_) => ByRefresh
  }

  predicate LoginOrigin(origin: Origin) {
    origin.FromCode? || (origin.FromLogin? && origin.loginMethod != ByRefresh && origin.loginMethod != ByCode)
  }

  /** `scope` is what a user gets who asks for `asked` again, holding the admin role or not. */
  predicate Regranted(asked: string, allowed: seq<string>, scope: string) {
    scope == UserScope(asked, allowed, {}) || scope == UserScope(asked, allowed, {ADMIN})
  }

  lemma UserScopeRegrants(asked: string, allowed: seq<string>, roles: set<string>)
    ensures Regranted(asked, allowed, UserScope(asked, allowed, roles))
  {
    var like: set<string> := if ADMIN in roles then {ADMIN} else {};
    assert UserParts(asked, allowed, roles) == UserParts(asked, allowed, like);
  }

  /** The scope of a login row: granted under its client's list, and for a code that of the code granted again. */
  ghost predicate LoginScopeOk(s: State, row: Refresh, origin: Origin)
    requires row.client < |s.clients|
  {
    var allowed := s.clients[row.client].scopes;
    && GrantedUnder(row.scope, allowed)
    && (origin.FromCode? ==> origin.code < |s.codes| && Regranted(s.codes[origin.code].scope, allowed, row.scope))
  }

  predicate NewHash(rows: seq<Refresh>, row: Refresh) { forall i | 0 <= i < |rows| :: rows[i].hash != row.hash }

  predicate Unused(row: Refresh) { row.revokedAt == None && row.replacedBy == None }

  predicate AuditMatches(s: State, row: Refresh, birth: Birth, audit: Audit)
    requires row.client < |s.clients|
  {
    && audit.success && audit.user == row.user && audit.clientId == s.clients[row.client].clientId
    && audit.loginMethod == MethodOf(birth.origin)
  }

  /** Users and clients only grow, and a client keeps its identifier. */
  predicate TablesGrow(s: State, t: State) {
    && s.now <= t.now && |s.users| <= |t.users| && |s.clients| <= |t.clients|
    && (forall c | 0 <= c < |s.clients| :: t.clients[c].clientId == s.clients[c].clientId)
  }

  predicate RefreshSame(s: State, t: State) { t.refresh == s.refresh && t.births == s.births }

  ghost predicate Did(cfg: Config, s: State, t: State, effect: Effect) {
    && TablesGrow(s, t)
    && match effect
       case Quiet => RefreshSame(s, t) && t.audits == s.audits
       case Audited(a) => RefreshSame(s, t) && !a.success && t.audits == s.audits + [a]
       case Issues(row, birth, a) =>
         && t.refresh == s.refresh + [row] && t.births == s.births + [birth] && t.audits == s.audits + [a]
         && row.user.Some? && row.user.value < |t.users| && row.client < |s.clients|
         && Unused(row) && NewHash(s.refresh, row) && row.expiresAt == s.now + cfg.refreshLife
         && birth.at == s.now == t.now && LoginOrigin(birth.origin)
         && AuditMatches(s, row, birth, a) && LoginScopeOk(s, row, birth.origin)
       case Rotates(i, row, a) =>
         && i < |s.refresh|
         && var was, birth := s.refresh[i], Birth(s.now, FromRotation(i));
         && Live(was, s.now) && row.user == was.user && row.client == was.client && row.client < |s.clients|
         && Unused(row) && NewHash(s.refresh, row) && row.expiresAt == s.now + cfg.refreshLife
         && t.refresh == s.refresh[i := was.(revokedAt := Some(s.now), replacedBy := Some(|s.refresh|))] + [row]
         && t.births == s.births + [birth] && t.audits == s.audits + [a] && t.now == s.now
         && AuditMatches(s, row, birth, a)
         && (row.user.Some? ==> Regranted(was.scope, s.clients[row.client].scopes, row.scope))
       case Revokes(i) =>
         && i < |s.refresh| && s.refresh[i].revokedAt == None
         && t.refresh == s.refresh[i := s.refresh[i].(revokedAt := Some(s.now))]
         && t.births == s.births && t.audits == s.audits && t.now == s.now
  }

  lemma IssueEffect(cfg: Config, s: State, u: nat, c: nat, scope: string, how: LoginMethod, raw: string, origin: Origin)
    returns (effect: Effect)
    requires u < |s.users| && c < |s.clients| && how == MethodOf(origin) && LoginOrigin(origin)
    requires FindRefresh(s.refresh, cfg.sha(raw)).None?
    requires origin.FromCode? ==> origin.code < |s.codes| && s.codes[origin.code].scope == scope
    ensures Did(cfg, s, Issued(cfg, s, u, c, scope, how, raw, origin), effect)
  {
    var row := NewRow(cfg, s, u, c, IssuedScope(s, u, c, scope), raw);
    UserScopeRegrants(scope, s.clients[c].scopes, s.users[u].roles);
    assert GrantedUnder(row.scope, s.clients[c].scopes);
    effect := Issues(row, Birth(s.now, origin), Audit(Some(u), s.clients[c].clientId, how, true, NoReason));
  }

  lemma RefreshEffect(cfg: Config, s: State, c: nat, token: string, raw: string) returns (effect: Effect)
    requires c < |s.clients|
    ensures Did(cfg, s, GrantRefresh(cfg, s, c, token, raw).state, effect)
  {
    hide UserScope, ScopeIntersect, FindRefresh;
    var t := GrantRefresh(cfg, s, c, token, raw).state;
    effect := Quiet;
    if t != s {
      var i := FindRefresh(s.refresh, cfg.sha(token)).value;
      var n, row := |s.refresh|, s.refresh[i];
      if row.user.Some? {
        UserScopeRegrants(row.scope, s.clients[c].scopes, s.users[row.user.value].roles);
      }
      effect := Rotates(i, t.refresh[n], t.audits[|s.audits|]);
    }
  }

  lemma PasswordEffect(cfg: Config, s: State, c: nat, username: string, password: string, scope: string, raw: string)
    returns (effect: Effect)
    requires c < |s.clients|
    ensures Did(cfg, s, GrantPassword(cfg, s, c, username, password, scope, raw).state, effect)
  {
    var out := GrantPassword(cfg, s, c, username, password, scope, raw);
    if out.reply.Tokens? {
      effect := IssueEffect(cfg, s, PasswordCandidate(cfg, s, c, username).value, c, scope, ByPassword, raw,
          FromLogin(ByPassword));
    } else if out.state.audits == s.audits {
      effect := Quiet;
    } else {
      effect := Audited(out.state.audits[|s.audits|]);
    }
  }

  /** Two states that differ in users, identities or codes only. */
  predicate SameTokens(s: State, m: State) {
    && m.now == s.now && m.clients == s.clients && |s.users| <= |m.users|
    && m.refresh == s.refresh && m.births == s.births && m.audits == s.audits
    && |m.codes| == |s.codes| && forall k | 0 <= k < |s.codes| :: m.codes[k].scope == s.codes[k].scope
  }

  /** The effect of an issue, seen from before users, identities or codes were touched. */
  lemma LaterIssueEffect(cfg: Config, s: State, m: State, u: nat, c: nat, scope: string, how: LoginMethod, raw: string,
                         origin: Origin)
    returns (effect: Effect)
    requires SameTokens(s, m)
    requires u < |m.users| && c < |m.clients| && how == MethodOf(origin) && LoginOrigin(origin)
    requires FindRefresh(s.refresh, cfg.sha(raw)).None?
    requires origin.FromCode? ==> origin.code < |s.codes| && s.codes[origin.code].scope == scope
    ensures Did(cfg, s, Issued(cfg, m, u, c, scope, how, raw, origin), effect)
  {
    effect := IssueEffect(cfg, m, u, c, scope, how, raw, origin);
  }

  /** The three ways a code exchange can end: nothing happened; the code was consumed and the issue
      refused; or the code was consumed and tokens were issued. */
  lemma CodeOutcome(cfg: Config, s: State, c: nat, code: string, redirectUri: string, verifier: string, raw: string)
    requires c < |s.clients|
    ensures var out, found := GrantCode(cfg, s, c, code, redirectUri, verifier, raw), FindCode(s.codes, cfg.sha(code));
            || (out.state == s && out.reply.Refused? && out.reply.error != AccessDenied)
            || (&& found.Some? && ExchangeGate(cfg, s, c, found.value, redirectUri, verifier) == None
                && var k, u := found.value, s.codes[found.value].user;
                && u < |s.users|
                && if IssueGate(s.users[u], s.now).Some? then
                     out == Outcome(Consumed(s, k), Refused(IssueGate(s.users[u], s.now).value))
                   else
                     && FindRefresh(s.refresh, cfg.sha(raw)).None? && out.reply.Tokens?
                     && out == Issue(cfg, s, Consumed(s, k), u, c, s.codes[k].scope, ByCode, raw,
                         FromCode(k, redirectUri, verifier)))
  {
  }

  lemma CodeEffect(cfg: Config, s: State, c: nat, code: string, redirectUri: string, verifier: string, raw: string)
    returns (effect: Effect)
    requires c < |s.clients|
    ensures Did(cfg, s, GrantCode(cfg, s, c, code, redirectUri, verifier, raw).state, effect)
  {
    var out := GrantCode(cfg, s, c, code, redirectUri, verifier, raw);
    CodeOutcome(cfg, s, c, code, redirectUri, verifier, raw);
    effect := Quiet;
    if out.reply.Tokens? {
      var k := FindCode(s.codes, cfg.sha(code)).value;
      effect := LaterIssueEffect(cfg, s, Consumed(s, k), s.codes[k].user, c, s.codes[k].scope, ByCode, raw,
                                 FromCode(k, redirectUri, verifier));
    }
  }

  function HowOf(provider: Provider): LoginMethod { if provider == Telegram then ByTelegram else ByGoogle }

  /** The ways a federated login can end. */
  lemma FederatedOutcome(cfg: Config, s: State, provider: Provider, subject: string, email: string,
                         clientId: string, scope: string, raw: string, passwordHash: string)
    ensures var out := FederatedLogin(cfg, s, provider, subject, email, clientId, scope, raw, passwordHash);
            var client, r := AuthenticateClient(cfg, s, Creds(clientId, "", "", "")),
                Resolve(s, provider, subject, email, passwordHash);
            || (out.state == s && out.reply.Refused?)
            || (&& client.Some? && s.clients[client.value].isPublic && r.Resolved? && r.state.clients == s.clients
                && var u, how := r.user, HowOf(provider);
                && if IssueGate(r.state.users[u], s.now).Some? then
                     out == Outcome(r.state, Refused(IssueGate(r.state.users[u], s.now).value))
                   else
                     && FindRefresh(s.refresh, cfg.sha(raw)).None?
                     && out.state == Issued(cfg, r.state, u, client.value, scope, how, raw, FromLogin(how))
                     && out.reply == WithCookie(cfg, s.now, Issue(cfg, s, r.state, u, client.value, scope, how, raw,
                         FromLogin(how)).reply))
  {
  }

  lemma ResolveKeepsTokens(s: State, provider: Provider, subject: string, email: string, passwordHash: string)
    ensures var r := Resolve(s, provider, subject, email, passwordHash);
            r.Resolved? ==> SameTokens(s, r.state) && r.state.codes == s.codes
  {
  }

  lemma FederatedEffect(cfg: Config, s: State, provider: Provider, subject: string, email: string,
                        clientId: string, scope: string, raw: string, passwordHash: string) returns (effect: Effect)
    ensures Did(cfg, s, FederatedLogin(cfg, s, provider, subject, email, clientId, scope, raw, passwordHash).state,
        effect)
  {
    var out := FederatedLogin(cfg, s, provider, subject, email, clientId, scope, raw, passwordHash);
    FederatedOutcome(cfg, s, provider, subject, email, clientId, scope, raw, passwordHash);
    effect := Quiet;
    var r := Resolve(s, provider, subject, email, passwordHash);
    ResolveKeepsTokens(s, provider, subject, email, passwordHash);
    if out.reply.Tokens? {
      var c := AuthenticateClient(cfg, s, Creds(clientId, "", "", "")).value;
      effect := LaterIssueEffect(cfg, s, r.state, r.user, c, scope, HowOf(provider), raw, FromLogin(HowOf(provider)));
    }
  }

  lemma TokenEffect(cfg: Config, s: State, creds: Creds, grant: Grant) returns (effect: Effect)
    ensures Did(cfg, s, Token(cfg, s, creds, grant).state, effect)
  {
    effect := Quiet;
    match AuthenticateClient(cfg, s, creds) {
      case None =>
      case Some(c) =>
        match grant {
          case ClientCredentials(_) =>
          case Password(username, password, scope, raw) =>
            if username != "" && password != "" { effect := PasswordEffect(cfg, s, c, username, password, scope, raw); }
          case RefreshToken(token, raw) =>
            if token != "" { effect := RefreshEffect(cfg, s, c, token, raw); }
          case AuthorizationCode(code, redirectUri, verifier, raw) =>
            if code != "" && redirectUri != "" { effect := CodeEffect(cfg, s, c, code, redirectUri, verifier, raw); }
        }
    }
  }

  lemma AuthorizeOnlyAddsCodes(cfg: Config, s: State, r: AuthorizeRequest)
    ensures var out := Authorize(cfg, s, r);
            out.state == s.(codes := out.state.codes) && s.codes <= out.state.codes && !out.reply.Tokens?
  {
    hide AuthorizeGate, RegisterGate, NewCode, ErrorParams, WithState, Urls.Parse;
  }

  lemma BootstrapEffect(cfg: Config, s: State)
    ensures Did(cfg, s, Bootstrap(cfg, s), Quiet)
  {
    hide Normal, Merged, MarketUris;
    var a := s.(roleNames := s.roleNames + {"admin", "user"});
    var b := EnsureBootClient(cfg, a);
    var c := EnsureMarketClient(cfg, b);
    assert TablesGrow(s, b) && TablesGrow(b, c);
  }

  /** Every event has one of the five effects. */
  lemma StepEffect(cfg: Config, s: State, e: Event) returns (effect: Effect)
    ensures Did(cfg, s, Next(cfg, s, e), effect)
  {
    hide Token, Authorize, FederatedLogin, TelegramWidget.Verdict, Bootstrap, AuthenticateClient, KnownPrefix,
        WidgetPayload;
    effect := Quiet;
    match e {
      case TokenRequest(creds, grant) => effect := TokenEffect(cfg, s, creds, grant);
      case RevokeRequest(token) =>
        if Revoke(cfg, s, token).state != s { effect := Revokes(FindRefresh(s.refresh, cfg.sha(token)).value); }
      case TelegramRequested(r) =>
        if Next(cfg, s, e) != s {
          effect := FederatedEffect(cfg, s, Telegram, Decimal(r.id), SyntheticEmail(r.id), r.clientId, r.scope, r.raw,
              r.passwordHash);
        }
      case GoogleRequested(r) =>
        if Next(cfg, s, e) != s {
          effect := FederatedEffect(cfg, s, Google, r.idToken.value.0, Normal(cfg.lower, r.idToken.value.1),
                                    r.clientId, r.scope, r.raw, r.passwordHash);
        }
      case AuthorizeRequested(r) => AuthorizeOnlyAddsCodes(cfg, s, r);
      case Restarted => BootstrapEffect(cfg, s);
      case _ =>
    }
  }
}
