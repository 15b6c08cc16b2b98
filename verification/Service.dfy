/** The server as an object whose requests update its tables in place. Each method is proved against
    its request function, and each endpoint keeps every invariant. */
module Service {
  import opened Text
  import opened Scopes
  import opened Store
  import opened Steps
  import opened Machine
  import opened Invariants
  import AdminEdits
  import TelegramWidget
  import Urls

  /** What a rolled-back transaction restores. */
  datatype Savepoint = Savepoint(users: seq<User>, codes: seq<Code>, refresh: seq<Refresh>,
                                 audits: seq<Audit>, idents: seq<Identity>)

  datatype Registration = Stored | Rejected(error: string) | Clash

  /** Appends what is missing, and says whether anything was. */
  method MergeInto(have: seq<string>, want: seq<string>) returns (merged: seq<string>, changed: bool)
    ensures merged == Merged(have, want)
    ensures changed <==> merged != have
  {
    merged, changed := have, false;
    for i := 0 to |want|
      invariant Merged(have, want) == Merged(merged, want[i..])
      invariant have <= merged && (changed <==> merged != have)
    {
      if want[i] !in merged {
        merged, changed := merged + [want[i]], true;
      }
    }
  }

  lemma ElemsSnoc(xs: seq<string>, x: string)
    ensures Elems(xs + [x]) == Elems(xs) + {x}
  {
  }

  lemma NoElems()
    ensures forall names: seq<string> :: Elems(names[..0]) == {}
  {
  }

  lemma ElemsCounted(xs: seq<string>, x: string)
    ensures Elems(xs + [x]) == Elems(xs) + {x}
    ensures |Elems(xs + [x])| == |Elems(xs)| + if x in Elems(xs) then 0 else 1
  {
    ElemsSnoc(xs, x);
    assert x in Elems(xs) ==> Elems(xs) + {x} == Elems(xs);
  }

  lemma UpdatedTwice(users: seq<User>, u: nat, a: User, b: User)
    requires u < |users|
    ensures users[u := a][u := b] == users[u := b]
  {
  }

  /** The first `i` names are known and have been granted in this order. */
  predicate Granted(names: seq<string>, i: nat, known: set<string>, granted: seq<string>) {
    i <= |names| && |granted| == i && KnownPrefix(names, known) == granted + KnownPrefix(names[i..], known)
  }

  lemma NothingGranted(names: seq<string>, known: set<string>)
    ensures Granted(names, 0, known, [])
  {
    assert names[0..] == names;
  }

  /** With the next name, one more is granted, or the known prefix ends. */
  lemma NextName(names: seq<string>, i: nat, known: set<string>, granted: seq<string>)
    requires Granted(names, i, known, granted) && i < |names|
    ensures Strip(names[i]) in known ==> Granted(names, i + 1, known, granted + [Strip(names[i])])
    ensures Strip(names[i]) !in known ==> KnownPrefix(names, known) == granted
  {
    hide Strip;
    var rest := names[i..];
    assert rest[0] == names[i] && rest[1..] == names[i + 1..];
    if Strip(names[i]) in known {
      assert granted + ([Strip(names[i])] + KnownPrefix(names[i + 1..], known))
          == granted + [Strip(names[i])] + KnownPrefix(names[i + 1..], known);
    }
  }

  lemma AllGranted(names: seq<string>, known: set<string>, granted: seq<string>)
    requires Granted(names, |names|, known, granted)
    ensures KnownPrefix(names, known) == granted
  {
  }

  /** Granting a name twice shows in the whole known prefix. */
  lemma RepeatShows(names: seq<string>, i: nat, known: set<string>, granted: seq<string>)
    requires Granted(names, i, known, granted) && |Elems(granted)| < i
    ensures var prefix := KnownPrefix(names, known); |Elems(prefix)| < |prefix|
  {
    AdminEdits.RepeatedElems(granted, KnownPrefix(names[i..], known));
  }

  /** A rotation up to its flush: the row is revoked and its successor added, but not linked yet. */
  function RotationBegun(cfg: Config, s: State, i: nat, c: nat, scope: string, raw: string): State
    requires i < |s.refresh|
  {
    var row := s.refresh[i];
    s.(refresh := s.refresh[i := row.(revokedAt := Some(s.now))]
                  + [Refresh(cfg.sha(raw), row.user, c, scope, s.now + cfg.refreshLife, None, None)],
       births := s.births + [Birth(s.now, FromRotation(i))])
  }

  /** An exchange up to the exception that ends it: nothing if the comparison of the challenge raised, and
      everything if the flush did. */
  function ExchangeBegun(cfg: Config, s: State, k: nat, c: nat, redirectUri: string, verifier: string,
                         raw: string): State
    requires k < |s.codes| && c < |s.clients|
  {
    var u := s.codes[k].user;
    if ExchangeGate(cfg, s, c, k, redirectUri, verifier).Some? || u >= |s.users| then s
    else Issued(cfg, Consumed(s, k), u, c, s.codes[k].scope, ByCode, raw, FromCode(k, redirectUri, verifier))
  }

  class AuthServer {
    const cfg: Config
    var now: nat
    var users: seq<User>
    var roleNames: set<string>
    var clients: seq<Client>
    var codes: seq<Code>
    var refresh: seq<Refresh>
    var audits: seq<Audit>
    var idents: seq<Identity>
    ghost var births: seq<Birth>

    ghost function View(): State
      reads this
    {
      State(now, users, roleNames, clients, codes, refresh, audits, idents, births)
    }

    ghost predicate Valid()
      reads this
    {
      CaseTableOk(cfg.lower) && Consistent(cfg, View())
    }

    constructor (cfg: Config)
      requires CaseTableOk(cfg.lower)
      ensures Valid() && this.cfg == cfg && View() == EMPTY
    {
      this.cfg := cfg;
      now, users, roleNames, clients, codes, refresh, audits, idents, births := 0, [], {}, [], [], [], [], [], [];
      new;
      ReachableConsistent(cfg, []);
    }

    method Advance(elapsed: nat)
      requires Valid()
      modifies `now
      ensures Valid() && View() == Next(cfg, old(View()), Tick(elapsed))
    {
      hide Consistent, Token, Authorize, TelegramLogin, GoogleLogin, Bootstrap;
      now := now + elapsed;
      ConsistentStep(cfg, old(View()), Tick(elapsed));
    }

    method Rollback(to: Savepoint, ghost past: seq<Birth>)
      modifies `users, `codes, `refresh, `audits, `idents, `births
      ensures Savepoint(users, codes, refresh, audits, idents) == to && births == past
    {
      users, codes, refresh, audits, idents, births := to.users, to.codes, to.refresh, to.audits, to.idents, past;
    }

    // -------------------------------------------------------------- lockout and audit

    method BumpFailedLogin(email: string)
      modifies `users
      ensures match FindUser(old(users), email)
              case None => users == old(users)
              case Some(u) => users == old(users)[u := Bumped(old(users)[u], now)]
    {
      var found := FindUser(users, email);
      if found.None? {
        return;
      }
      var u := found.value;
      users := users[u := users[u].(failed := users[u].failed + 1)];
      if users[u].failed >= MAX_FAILED {
        users := users[u := users[u].(lockedUntil := Some(now + LOCK_TIME))];
      }
    }

    method AuditLogin(success: bool, reason: Reason, user: Option<nat>, clientId: string, loginMethod: LoginMethod)
      modifies `audits
      ensures audits == old(audits) + [Audit(user, clientId, loginMethod, success, reason)]
    {
      audits := audits + [Audit(user, clientId, loginMethod, success, reason)];
    }

    // -------------------------------------------------------------- issuing

    /** The part of issuing that is not gated: the lockout is reset, a first refresh token and an audit
        are added. If the unique index on hashes refuses the row, the reply says so, and the endpoint will
        roll back what was done here. */
    method StartChain(u: nat, c: nat, scope: string, how: LoginMethod, raw: string, ghost origin: Origin)
      returns (reply: Reply)
      requires u < |users| && c < |clients|
      modifies `users, `refresh, `audits, `births
      ensures var s := old(View());
              && reply == Issue(cfg, s, s, u, c, scope, how, raw, origin).reply
              && View() == Issued(cfg, s, u, c, scope, how, raw, origin)
    {
      hide UserScope, FindRefresh;
      users := users[u := users[u].(failed := 0)];
      users := users[u := users[u].(lockedUntil := None)];
      assert users == ResetLockout(old(View()), u).users;
      var sc := UserScope(scope, clients[c].scopes, users[u].roles);
      var access := MintAccess(cfg, now, UserSubject(u), sc, clients[c].clientId);
      var row := Refresh(cfg.sha(raw), Some(u), c, sc, now + cfg.refreshLife, None, None);
      var clash := FindRefresh(refresh, row.hash).Some?;
      refresh, births := refresh + [row], births + [Birth(now, origin)];
      AuditLogin(true, NoReason, Some(u), clients[c].clientId, how);
      if clash {
        return Refused(ServerError);
      }
      return Tokens(access, Some(raw), sc, None);
    }

    method IssueTokensForUser(u: nat, c: nat, scope: string, how: LoginMethod, raw: string, ghost origin: Origin)
      returns (reply: Reply)
      requires u < |users| && c < |clients|
      modifies `users, `refresh, `audits, `births
      ensures var s := old(View());
              match IssueGate(s.users[u], s.now)
              case Some(error) => reply == Refused(error) && View() == s
              case None =>
                reply == Issue(cfg, s, s, u, c, scope, how, raw, origin).reply
                && View() == Issued(cfg, s, u, c, scope, how, raw, origin)
    {
      if !users[u].active {
        return Refused(InvalidGrant);
      }
      if Locked(users[u], now) {
        return Refused(AccessDenied);
      }
      reply := StartChain(u, c, scope, how, raw, origin);
    }

    // -------------------------------------------------------------- the grants

    method DoGrantPassword(c: nat, username: string, password: string, scope: string, raw: string)
      returns (reply: Reply)
      requires c < |clients|
      modifies `users, `refresh, `audits, `births
      ensures var s := old(View());
              var out, u := GrantPassword(cfg, s, c, username, password, scope, raw),
                  PasswordCandidate(cfg, s, c, username);
              && reply == out.reply
              && if reply != Refused(ServerError) then View() == out.state
                 else u.Some? && View() == Issued(cfg, s, u.value, c, scope, ByPassword, raw, FromLogin(ByPassword))
    {
      var client := clients[c];
      if !cfg.passwordEnabled {
        return Refused(UnsupportedGrant);
      }
      if !client.allowPassword || "password" !in client.grants {
        return Refused(UnsupportedGrant);
      }
      if client.isPublic {
        return Refused(UnauthorizedClient);
      }
      var email := Normal(cfg.lower, username);
      var found := FindUser(users, email);
      if found.None? || !users[found.value].active {
        AuditLogin(false, InvalidCredentials, found, client.clientId, ByPassword);
        return Refused(InvalidGrant);
      }
      var u := found.value;
      if Locked(users[u], now) {
        AuditLogin(false, LockedOut, Some(u), client.clientId, ByPassword);
        return Refused(AccessDenied);
      }
      if !cfg.verify(password, users[u].passwordHash) {
        BumpFailedLogin(email);
        AuditLogin(false, InvalidCredentials, Some(u), client.clientId, ByPassword);
        return Refused(InvalidGrant);
      }
      reply := StartChain(u, c, scope, ByPassword, raw, FromLogin(ByPassword));
    }

    method DoGrantRefresh(c: nat, token: string, raw: string) returns (reply: Reply)
      requires c < |clients|
      modifies `refresh, `audits, `births
      ensures var s := old(View());
              var out, i := GrantRefresh(cfg, s, c, token, raw), FindRefresh(s.refresh, cfg.sha(token));
              && reply == out.reply
              && if reply != Refused(ServerError) then View() == out.state
                 else i.Some? && RotationGrant(s, c, s.refresh[i.value]).Some?
                      && View() == RotationBegun(cfg, s, i.value, c, RotationGrant(s, c, s.refresh[i.value]).value.1,
                          raw)
    {
      hide UserScope, ScopeIntersect, FindRefresh, MintAccess, RotationGrant;
      if "refresh_token" !in clients[c].grants {
        return Refused(UnsupportedGrant);
      }
      var found := FindRefresh(refresh, cfg.sha(token));
      if found.None? || refresh[found.value].revokedAt.Some? || refresh[found.value].expiresAt < now {
        return Refused(InvalidGrant);
      }
      var i := found.value;
      if refresh[i].client != c {
        return Refused(InvalidGrant);
      }
      var grant := ScopeOfRotation(c, i);
      if grant.None? {
        return Refused(InvalidGrant);
      }
      var (sub, sc) := grant.value;
      var access := MintAccess(cfg, now, sub, sc, clients[c].clientId);
      var row := refresh[i];
      var successor := Refresh(cfg.sha(raw), row.user, c, sc, now + cfg.refreshLife, None, None);
      var clash := FindRefresh(refresh, successor.hash).Some?;
      refresh := refresh[i := refresh[i].(revokedAt := Some(now))];
      var j := |refresh|;
      refresh, births := refresh + [successor], births + [Birth(now, FromRotation(i))];
      assert refresh == RotationBegun(cfg, old(View()), i, c, sc, raw).refresh;
      if clash {
        return Refused(ServerError);
      }
      refresh := refresh[i := refresh[i].(replacedBy := Some(j))];
      AuditLogin(true, Refreshed, row.user, clients[c].clientId, ByRefresh);
      assert refresh == Rotated(cfg, old(View()), i, c, sc, raw).refresh;
      return Tokens(access, Some(raw), sc, None);
    }

    /** Subject and scope of the next access token of row `i`; none for an unknown or inactive user. */
    method ScopeOfRotation(c: nat, i: nat) returns (grant: Option<(Subject, string)>)
      requires c < |clients| && i < |refresh|
      ensures grant == RotationGrant(View(), c, refresh[i])
    {
      hide UserScope, ScopeIntersect;
      var row, client := refresh[i], clients[c];
      if row.user.None? {
        return Some((ClientSubject(client.clientId), ScopeIntersect(row.scope, client.scopes)));
      }
      var u := row.user.value;
      if u >= |users| || !users[u].active {
        return None;
      }
      return Some((UserSubject(u), UserScope(row.scope, client.scopes, users[u].roles)));
    }

    method DoGrantCode(c: nat, code: string, redirectUri: string, verifier: string, raw: string) returns (reply: Reply)
      requires c < |clients|
      modifies `users, `codes, `refresh, `audits, `births
      ensures var s := old(View());
              var out, k := GrantCode(cfg, s, c, code, redirectUri, verifier, raw), FindCode(s.codes, cfg.sha(code));
              && reply == out.reply
              && if reply != Refused(ServerError) then View() == out.state
                 else k.Some? && View() == ExchangeBegun(cfg, s, k.value, c, redirectUri, verifier, raw)
    {
      if "authorization_code" !in clients[c].grants {
        return Refused(UnsupportedGrant);
      }
      var found := FindCode(codes, cfg.sha(code));
      if found.None? {
        return Refused(InvalidGrant);
      }
      var k := found.value;
      var gate := CheckExchange(c, k, redirectUri, verifier);
      if gate.Some? {
        return Refused(gate.value);
      }
      codes := codes[k := codes[k].(consumedAt := Some(now))];
      reply := IssueTokensForUser(codes[k].user, c, codes[k].scope, ByCode, raw, FromCode(k, redirectUri, verifier));
    }

    method Authenticate(creds: Creds) returns (client: Option<nat>)
      ensures client == AuthenticateClient(cfg, View(), creds)
    {
      var id, secret := Or(creds.id, creds.basicId), Or(creds.secret, creds.basicSecret);
      if id == "" {
        return None;
      }
      var found := FindClient(clients, id);
      if found.None? {
        return None;
      }
      var row := clients[found.value];
      if row.isPublic {
        return if secret != "" then None else found;
      }
      if row.secretHash == "" || secret == "" || !cfg.verify(secret, row.secretHash) {
        return None;
      }
      return found;
    }

    method CheckExchange(c: nat, k: nat, redirectUri: string, verifier: string) returns (error: Option<Error>)
      requires c < |clients| && k < |codes|
      ensures error == ExchangeGate(cfg, View(), c, k, redirectUri, verifier)
      ensures error.None? ==> codes[k].user < |users|
    {
      var row := codes[k];
      if row.consumedAt.Some? || row.expiresAt < now {
        return Some(InvalidGrant);
      }
      if row.client != c || row.redirectUri != redirectUri || verifier == "" {
        return Some(InvalidGrant);
      }
      var matches := Pkce.VerifyS256(cfg.sha, verifier, row.challenge);
      if matches.None? {
        return Some(ServerError);
      }
      if !matches.value || row.user >= |users| || !users[row.user].active {
        return Some(InvalidGrant);
      }
      if clients[c].isPublic && users[row.user].kind != Customer {
        return Some(InvalidGrant);
      }
      return None;
    }

    /** `POST /oauth/token`. */
    method PostToken(creds: Creds, grant: Grant) returns (reply: Reply)
      requires Valid()
      modifies this
      ensures Valid() && Outcome(View(), reply) == Step(cfg, old(View()), TokenRequest(creds, grant))
    {
      hide Consistent, Token, Authorize, TelegramLogin, GoogleLogin, Bootstrap;
      ConsistentStep(cfg, View(), TokenRequest(creds, grant));
      var savepoint := Savepoint(users, codes, refresh, audits, idents);
      ghost var past := births;
      reply := HandleToken(creds, grant);
      if reply == Refused(ServerError) {
        Rollback(savepoint, past);
        TokenErrorsRollBack(cfg, old(View()), creds, grant);
      }
    }

    method HandleToken(creds: Creds, grant: Grant) returns (reply: Reply)
      modifies `users, `codes, `refresh, `audits, `births
      ensures var out := Token(cfg, old(View()), creds, grant);
              reply == out.reply && (reply == Refused(ServerError) || View() == out.state)
    {
      var client := Authenticate(creds);
      if client.None? {
        return Refused(InvalidClient);
      }
      var c := client.value;
      match grant {
        case ClientCredentials(scope) =>
          if "client_credentials" !in clients[c].grants {
            return Refused(UnsupportedGrant);
          }
          var sc := ClientScope(scope, clients[c].scopes);
          var access := MintAccess(cfg, now, ClientSubject(clients[c].clientId), sc, clients[c].clientId);
          return Tokens(access, None, sc, None);
        case Password(username, password, scope, raw) =>
          if username == "" || password == "" {
            return Refused(InvalidRequest);
          }
          reply := DoGrantPassword(c, username, password, scope, raw);
        case RefreshToken(token, raw) =>
          if token == "" {
            return Refused(InvalidRequest);
          }
          reply := DoGrantRefresh(c, token, raw);
        case AuthorizationCode(code, redirectUri, verifier, raw) =>
          if code == "" || redirectUri == "" {
            return Refused(InvalidRequest);
          }
          reply := DoGrantCode(c, code, redirectUri, verifier, raw);
      }
    }

    /** `POST /oauth/revoke`. */
    method PostRevoke(token: string)
      requires Valid()
      modifies `refresh
      ensures Valid() && Outcome(View(), Done) == Step(cfg, old(View()), RevokeRequest(token))
    {
      hide Consistent, Token, Authorize, TelegramLogin, GoogleLogin, Bootstrap;
      if token != "" {
        var found := FindRefresh(refresh, cfg.sha(token));
        if found.Some? && refresh[found.value].revokedAt.None? {
          var i := found.value;
          refresh := refresh[i := refresh[i].(revokedAt := Some(now))];
        }
      }
      ConsistentStep(cfg, old(View()), RevokeRequest(token));
    }

    // -------------------------------------------------------------- the authorization endpoint

    method RegisterAuthorizationCode(c: nat, u: nat, r: AuthorizeRequest) returns (result: Registration)
      requires c < |clients| && u < |users|
      modifies `codes
      ensures var s := old(View());
              match RegisterGate(s, c, u)
              case Some(error) => result == Rejected(error) && codes == old(codes)
              case None =>
                && codes == s.codes + [NewCode(cfg, s, c, u, r)]
                && result == if FindCode(s.codes, cfg.sha(r.raw)).Some? then Clash else Stored
    {
      hide UserScope, Strip;
      if !clients[c].isPublic {
        return Rejected("unauthorized_client");
      }
      if "authorization_code" !in clients[c].grants {
        return Rejected("unauthorized_client");
      }
      if users[u].kind != Customer {
        return Rejected("access_denied");
      }
      if !users[u].active {
        return Rejected("access_denied");
      }
      if Locked(users[u], now) {
        return Rejected("access_denied");
      }
      var sc := UserScope(r.scope, clients[c].scopes, users[u].roles);
      var row := Code(cfg.sha(r.raw), c, u, r.redirectUri, sc, Strip(r.challenge), now + cfg.codeLife, None);
      var clash := FindCode(codes, row.hash).Some?;
      codes := codes + [row];
      return if clash then Clash else Stored;
    }

    /** `GET /oauth/authorize`. */
    method GetAuthorize(r: AuthorizeRequest) returns (reply: Reply)
      requires Valid()
      modifies this
      ensures Valid() && Outcome(View(), reply) == Step(cfg, old(View()), AuthorizeRequested(r))
    {
      hide Consistent, Token, TelegramLogin, GoogleLogin, Bootstrap, AuthorizationRedirect;
      ConsistentStep(cfg, View(), AuthorizeRequested(r));
      var found := FindClient(clients, Strip(r.clientId));
      if found.None? {
        return Refused(InvalidRequest);
      }
      if r.redirectUri !in clients[found.value].redirectUris {
        return Refused(InvalidRequest);
      }
      reply := SendRedirect(found.value, r);
    }

    /** The redirect with a code or an error; an exception on the way rolls back. */
    method SendRedirect(c: nat, r: AuthorizeRequest) returns (reply: Reply)
      requires c < |clients|
      modifies `codes
      ensures Outcome(View(), reply) == AuthorizationRedirect(cfg, old(View()), c, r)
    {
      hide AuthorizeGate, RegisterGate, NewCode, ErrorParams, WithState, Urls.Parse, FindCode;
      var problem, user := CheckAuthorize(c, r);
      var savepoint := codes;
      var params, clash := map[], false;
      if problem.Some? {
        params := ErrorParams(problem.value.0, r.state, problem.value.1);
      } else {
        var result := RegisterAuthorizationCode(c, user, r);
        match result {
          case Rejected(error) => params := ErrorParams(error, r.state, "");
          case Stored => params := WithState(map["code" := r.raw], r.state);
          case Clash => clash := true;
        }
      }
      if clash || Urls.Parse(cfg.authority, r.redirectUri).None? {
        codes := savepoint; // rolled back
        return Refused(ServerError);
      }
      return Redirect(r.redirectUri, params);
    }

    /** What is checked before a code is registered; without a problem, the user of the cookie. */
    method CheckAuthorize(c: nat, r: AuthorizeRequest) returns (problem: Option<(string, string)>, user: nat)
      requires c < |clients|
      ensures problem == AuthorizeGate(View(), c, r)
      ensures problem.None? ==> r.cookie.Some? && CookieUser(View(), r.cookie.value) == Some(user) && user < |users|
    {
      user := 0;
      if Strip(r.responseType) != "code" {
        return Some(("unsupported_response_type", "Only response_type=code is supported")), 0;
      }
      if !clients[c].isPublic {
        return Some(("unauthorized_client", "Authorization Code flow is for public clients only")), 0;
      }
      if Strip(r.challenge) == "" || !IsS256(r.challengeMethod) {
        return Some(("invalid_request", "code_challenge and code_challenge_method=S256 are required")), 0;
      }
      if r.cookie.None? {
        return Some(("login_required",
            "Sign in first (e.g. POST /oauth/federated/google or /oauth/federated/telegram)")), 0;
      }
      var cookie := r.cookie.value;
      if !cookie.BrowserLogin? || !Decodes(cookie, now) || !cookie.sub.UserSubject? {
        return Some(("login_required", "Invalid or expired login session")), 0;
      }
      if cookie.sub.id >= |users| {
        return Some(("login_required", "User not found")), 0;
      }
      return None, cookie.sub.id;
    }

    // -------------------------------------------------------------- federated login

    method LinkOrCreate(provider: Provider, subject: string, email: string, passwordHash: string)
      returns (denied: Option<Error>, user: nat)
      modifies `users, `idents
      ensures match Resolve(old(View()), provider, subject, email, passwordHash)
              case Denied(error) => denied == Some(error) && View() == old(View())
              case Resolved(resolved, u) => denied == None && user == u && View() == resolved
      ensures denied.None? ==> user < |users|
    {
      var known := FindIdentity(idents, provider, subject);
      if known.Some? {
        user := idents[known.value].user;
        if user >= |users| {
          return Some(ServerError), user;
        }
        return if users[user].kind == Staff then Some(StaffDenied) else None, user;
      }
      var existing := FindUser(users, email);
      if existing.Some? {
        user := existing.value;
        if users[user].kind == Staff {
          return Some(StaffDenied), user;
        }
      } else {
        user := |users|;
        users := users + [User(email, Customer, passwordHash, true, None, 0, {})];
      }
      idents := idents + [Identity(user, provider, subject)];
      return None, user;
    }

    /** What both providers do once the assertion is verified. */
    method LoginFederated(provider: Provider, subject: string, email: string, clientId: string, scope: string,
                          raw: string, passwordHash: string) returns (reply: Reply)
      modifies `users, `idents, `refresh, `audits, `births
      ensures Outcome(View(), reply) == FederatedLogin(cfg, old(View()), provider, subject, email, clientId, scope,
          raw, passwordHash)
    {
      hide AuthenticateClient, Resolve, UserScope, FindRefresh;
      var savepoint := Savepoint(users, codes, refresh, audits, idents);
      ghost var past := births;
      var client := Authenticate(Creds(clientId, "", "", ""));
      if client.None? || !clients[client.value].isPublic {
        return Refused(UnauthorizedClient);
      }
      var denied, user := LinkOrCreate(provider, subject, email, passwordHash);
      if denied.Some? {
        return Refused(denied.value);
      }
      var how := if provider == Telegram then ByTelegram else ByGoogle;
      reply := IssueTokensForUser(user, client.value, scope, how, raw, FromLogin(how));
      if reply == Refused(ServerError) {
        users, refresh, audits, idents, births := savepoint.users, savepoint.refresh, savepoint.audits,
            savepoint.idents, past;
      } else if reply.Tokens? {
        reply := reply.(cookie := Some(MintBrowserLogin(cfg, now, reply.access.sub)));
      }
    }

    /** `POST /oauth/federated/telegram`. */
    method LoginWithTelegram(r: TelegramRequest) returns (reply: Reply)
      requires Valid()
      modifies this
      ensures Valid() && Outcome(View(), reply) == Step(cfg, old(View()), TelegramRequested(r))
    {
      hide Consistent, Token, Authorize, GoogleLogin, Bootstrap, TelegramWidget.Verdict, FederatedLogin, WidgetPayload;
      ghost var s := View();
      ConsistentStep(cfg, s, TelegramRequested(r));
      if cfg.botToken == "" {
        return Refused(FederatedDisabled);
      }
      var verdict := TelegramWidget.Verify(cfg.mac, cfg.parseInt, WidgetPayload(r), cfg.botToken, now);
      if verdict.None? {
        return Refused(ServerError);
      }
      if !verdict.value {
        return Refused(InvalidGrant);
      }
      reply := LoginFederated(Telegram, Decimal(r.id), SyntheticEmail(r.id), r.clientId, r.scope, r.raw,
          r.passwordHash);
    }

    /** `POST /oauth/federated/google`. */
    method LoginWithGoogle(r: GoogleRequest) returns (reply: Reply)
      requires Valid()
      modifies this
      ensures Valid() && Outcome(View(), reply) == Step(cfg, old(View()), GoogleRequested(r))
    {
      hide Consistent, Token, Authorize, TelegramLogin, Bootstrap, FederatedLogin;
      ghost var s := View();
      ConsistentStep(cfg, s, GoogleRequested(r));
      if !cfg.googleEnabled {
        return Refused(FederatedDisabled);
      }
      if r.idToken.None? || r.idToken.value.0 == "" {
        return Refused(InvalidGrant);
      }
      var email := Normal(cfg.lower, r.idToken.value.1);
      if email == "" {
        return Refused(InvalidGrant);
      }
      reply := LoginFederated(Google, r.idToken.value.0, email, r.clientId, r.scope, r.raw, r.passwordHash);
    }

    // -------------------------------------------------------------- admin edits

    method DoCreateUser(email: string, kind: Kind, passwordHash: string) returns (reply: Reply)
      modifies `users
      ensures Outcome(View(), reply) == CreateUser(cfg, old(View()), email, kind, passwordHash)
    {
      hide Normal, FindUser;
      var e := Normal(cfg.lower, email);
      if FindUser(users, e).Some? {
        return Refused(EmailExists);
      }
      var u := |users|;
      users := users + [User(e, kind, passwordHash, true, None, 0, {})];
      if "user" in roleNames {
        users := users[u := users[u].(roles := {"user"})];
      }
      return Done;
    }

    method AdminCreateUser(email: string, kind: Kind, passwordHash: string) returns (reply: Reply)
      requires Valid()
      modifies `users
      ensures Valid() && Outcome(View(), reply) == Step(cfg, old(View()), UserCreated(email, kind, passwordHash))
    {
      hide Consistent, CreateUser, Token, Authorize, TelegramLogin, GoogleLogin, Bootstrap;
      ConsistentStep(cfg, View(), UserCreated(email, kind, passwordHash));
      reply := DoCreateUser(email, kind, passwordHash);
    }

    method DoPatchUser(u: nat, p: UserPatch) returns (reply: Reply)
      modifies `users
      ensures Outcome(View(), reply) == PatchUser(cfg, old(View()), u, p)
    {
      hide Normal, FindUser;
      if u >= |users| {
        return Refused(NotFound);
      }
      var row := users[u];
      if p.email.Some? {
        var e := Normal(cfg.lower, p.email.value);
        if e != row.email {
          if FindUser(users, e).Some? {
            return Refused(EmailExists);
          }
          row := row.(email := e);
        }
      }
      if p.active.Some? {
        row := row.(active := p.active.value);
      }
      if p.kind.Some? {
        row := row.(kind := p.kind.value);
      }
      if p.passwordHash.Some? {
        row := row.(passwordHash := p.passwordHash.value);
      }
      users := users[u := row];
      return Done;
    }

    method AdminPatchUser(u: nat, p: UserPatch) returns (reply: Reply)
      requires Valid()
      modifies `users
      ensures Valid() && Outcome(View(), reply) == Step(cfg, old(View()), UserPatched(u, p))
    {
      hide Consistent, PatchUser, Token, Authorize, TelegramLogin, GoogleLogin, Bootstrap;
      ConsistentStep(cfg, View(), UserPatched(u, p));
      reply := DoPatchUser(u, p);
    }

    method AdminDeleteUser(u: nat) returns (reply: Reply)
      requires Valid()
      modifies `users
      ensures Valid() && Outcome(View(), reply) == Step(cfg, old(View()), UserDeleted(u))
    {
      hide Consistent, Token, Authorize, TelegramLogin, GoogleLogin, Bootstrap;
      ConsistentStep(cfg, View(), UserDeleted(u));
      if u >= |users| {
        return Refused(NotFound);
      }
      users := users[u := users[u].(active := false)];
      return Done;
    }

    method DoReplaceRoles(u: nat, names: seq<string>) returns (reply: Reply)
      modifies `users
      ensures Outcome(View(), reply) == ReplaceUserRoles(old(View()), u, names)
    {
      hide KnownPrefix, Strip, Granted;
      if u >= |users| {
        return Refused(NotFound);
      }
      var savepoint := users;
      users := users[u := users[u].(roles := {})];
      ghost var granted: seq<string> := [];
      assert Elems(granted) == {};
      hide Elems;
      NothingGranted(names, roleNames);
      for i := 0 to |names|
        invariant |users| == |old(users)| && users == old(users)[u := old(users)[u].(roles := Elems(granted))]
        invariant Granted(names, i, roleNames, granted) && |granted| == i == |Elems(granted)|
      {
        var name := Strip(names[i]);
        NextName(names, i, roleNames, granted);
        if name !in roleNames {
          return Refused(UnknownRole);
        }
        ElemsCounted(granted, name);
        granted := granted + [name];
        if name in users[u].roles {
          RepeatShows(names, i + 1, roleNames, granted);
          users := savepoint; // rolled back
          return Refused(ServerError);
        }
        UpdatedTwice(old(users), u, users[u], users[u].(roles := users[u].roles + {name}));
        users := users[u := users[u].(roles := users[u].roles + {name})];
      }
      AllGranted(names, roleNames, granted);
      return Done;
    }

    method AdminReplaceRoles(u: nat, names: seq<string>) returns (reply: Reply)
      requires Valid()
      modifies `users
      ensures Valid() && Outcome(View(), reply) == Step(cfg, old(View()), RolesReplaced(u, names))
    {
      hide Consistent, ReplaceUserRoles, Token, Authorize, TelegramLogin, GoogleLogin, Bootstrap;
      ConsistentStep(cfg, View(), RolesReplaced(u, names));
      reply := DoReplaceRoles(u, names);
    }

    method DoAddRoles(u: nat, names: seq<string>) returns (reply: Reply)
      modifies `users
      ensures Outcome(View(), reply) == AddUserRoles(old(View()), u, names)
    {
      hide KnownPrefix, Strip, Granted;
      if u >= |users| {
        return Refused(NotFound);
      }
      var have := users[u].roles;
      ghost var granted: seq<string> := [];
      assert Elems(granted) == {};
      hide Elems;
      NothingGranted(names, roleNames);
      for i := 0 to |names|
        invariant |users| == |old(users)| && users == old(users)[u := old(users)[u].(roles := have)]
        invariant have == old(users)[u].roles + Elems(granted) && Granted(names, i, roleNames, granted)
        invariant |granted| == i
      {
        var name := Strip(names[i]);
        NextName(names, i, roleNames, granted);
        if name !in roleNames {
          return Refused(UnknownRole);
        }
        ElemsSnoc(granted, name);
        granted := granted + [name];
        if name !in have {
          UpdatedTwice(old(users), u, users[u], users[u].(roles := users[u].roles + {name}));
          users := users[u := users[u].(roles := users[u].roles + {name})];
          have := have + {name};
        }
      }
      AllGranted(names, roleNames, granted);
      return Done;
    }

    method AdminAddRoles(u: nat, names: seq<string>) returns (reply: Reply)
      requires Valid()
      modifies `users
      ensures Valid() && Outcome(View(), reply) == Step(cfg, old(View()), RolesAdded(u, names))
    {
      hide Consistent, AddUserRoles, Token, Authorize, TelegramLogin, GoogleLogin, Bootstrap;
      ConsistentStep(cfg, View(), RolesAdded(u, names));
      reply := DoAddRoles(u, names);
    }

    method DoCreateClient(client: Client) returns (reply: Reply)
      modifies `clients
      ensures Outcome(View(), reply) == CreateClient(old(View()), client)
    {
      hide Strip;
      var id := Strip(client.clientId);
      if FindClient(clients, id).Some? {
        return Refused(ClientIdExists);
      }
      var secretHash := if client.isPublic then "" else client.secretHash;
      clients := clients + [Client(id, secretHash, client.isPublic, client.redirectUris,
          OrDefault(client.grants, ALL_GRANTS),
                                   OrDefault(client.scopes, STANDARD_SCOPES), client.allowPassword)];
      return Done;
    }

    method AdminCreateClient(client: Client) returns (reply: Reply)
      requires Valid()
      modifies `clients
      ensures Valid() && Outcome(View(), reply) == Step(cfg, old(View()), ClientCreated(client))
    {
      hide Consistent, CreateClient, Token, Authorize, TelegramLogin, GoogleLogin, Bootstrap;
      ConsistentStep(cfg, View(), ClientCreated(client));
      reply := DoCreateClient(client);
    }

    method DoPatchClient(c: nat, p: ClientPatch) returns (reply: Reply)
      modifies `clients
      ensures Outcome(View(), reply) == PatchClient(old(View()), c, p)
    {
      hide Step;
      if c >= |clients| {
        return Refused(NotFound);
      }
      var row := clients[c];
      if p.isPublic.Some? {
        row := row.(isPublic := p.isPublic.value);
      }
      if p.redirectUris.Some? {
        row := row.(redirectUris := p.redirectUris.value);
      }
      if p.grants.Some? {
        row := row.(grants := p.grants.value);
      }
      if p.scopes.Some? {
        row := row.(scopes := p.scopes.value);
      }
      if p.allowPassword.Some? {
        row := row.(allowPassword := p.allowPassword.value);
      }
      if p.secretHash.Some? {
        row := row.(secretHash := p.secretHash.value);
      }
      clients := clients[c := row];
      return Done;
    }

    method AdminPatchClient(c: nat, p: ClientPatch) returns (reply: Reply)
      requires Valid()
      modifies `clients
      ensures Valid() && Outcome(View(), reply) == Step(cfg, old(View()), ClientPatched(c, p))
    {
      hide Consistent, PatchClient, Token, Authorize, TelegramLogin, GoogleLogin, Bootstrap;
      ConsistentStep(cfg, View(), ClientPatched(c, p));
      reply := DoPatchClient(c, p);
    }

    // -------------------------------------------------------------- bootstrap

    method RunBootstrap()
      requires Valid()
      modifies this
      ensures Valid() && View() == Next(cfg, old(View()), Restarted)
    {
      hide Consistent, Token, Authorize, TelegramLogin, GoogleLogin, Bootstrap;
      ConsistentStep(cfg, View(), Restarted);
      DoBootstrap();
    }

    method DoBootstrap()
      modifies `roleNames, `clients, `users
      ensures View() == Bootstrap(cfg, old(View()))
    {
      hide EnsureBootClient, EnsureMarketClient, EnsureAdmin;
      DoEnsureRoles();
      DoEnsureBootClient();
      DoEnsureMarketClient();
      DoEnsureAdmin();
    }

    method DoEnsureRoles()
      modifies `roleNames
      ensures roleNames == old(roleNames) + {"admin", "user"}
    {
      var names := ["admin", "user"];
      assert Elems(names) == {"admin", "user"};
      hide Elems;
      NoElems();
      for i := 0 to |names|
        invariant roleNames == old(roleNames) + Elems(names[..i])
      {
        assert names[..i + 1] == names[..i] + [names[i]];
        ElemsSnoc(names[..i], names[i]);
        if names[i] !in roleNames {
          roleNames := roleNames + {names[i]};
        }
      }
      assert names[..|names|] == names;
    }

    method DoEnsureBootClient()
      modifies `clients
      ensures View() == EnsureBootClient(cfg, old(View()))
    {
      if FindClient(clients, cfg.bootClientId).Some? {
        return;
      }
      clients := clients + [BootClient(cfg)];
    }

    method DoEnsureMarketClient()
      modifies `clients
      ensures View() == EnsureMarketClient(cfg, old(View()))
    {
      hide MarketUris;
      var defaultUris := MarketUris(cfg);
      var found := FindClient(clients, cfg.publicClientId);
      if found.None? {
        clients := clients + [MarketClient(cfg)];
        return;
      }
      var c := found.value;
      var merged, changedGrants := MergeInto(clients[c].grants, MARKET_GRANTS);
      var uris, changedUris := MergeInto(clients[c].redirectUris, defaultUris);
      if changedGrants || changedUris {
        clients := clients[c := clients[c].(grants := merged)];
        clients := clients[c := clients[c].(redirectUris := uris)];
      }
    }

    method DoEnsureAdmin()
      modifies `users
      ensures View() == EnsureAdmin(cfg, old(View()))
    {
      hide Normal;
      if cfg.adminEmail == "" || cfg.adminPassword == "" {
        return;
      }
      var email := Normal(cfg.lower, cfg.adminEmail);
      if FindUser(users, email).Some? {
        return;
      }
      var u := |users|;
      users := users + [User(email, Staff, cfg.adminHash, true, None, 0, {})];
      users := users[u := users[u].(roles := {"admin"})];
    }
  }

  lemma TokenErrorsRollBack(cfg: Config, s: State, creds: Creds, grant: Grant)
    requires Token(cfg, s, creds, grant).reply == Refused(ServerError)
    ensures Token(cfg, s, creds, grant).state == s
  {
  }
}
