/** What each request does to the tables and what it answers. A request is one atomic step at one
    instant. An OAuth error still commits what was changed before it; an unhandled exception, such
    as a clash in a unique index, rolls everything back. */
module Steps {
  import opened Text
  import opened Scopes
  import opened Pkce
  import opened Store
  import TelegramWidget
  import Urls

  function AddAudit(s: State, audit: Audit): State { s.(audits := s.audits + [audit]) }

  // ---------------------------------------------------------------- client authentication

  /** Form credentials, and HTTP Basic credentials as the fallback; an absent one is empty. */
  datatype Creds = Creds(id: string, secret: string, basicId: string, basicSecret: string)

  function Or(a: string, b: string): string { if a != "" then a else b }

  function AuthenticateClient(cfg: Config, s: State, creds: Creds): (r: Option<nat>)
    ensures r.Some? ==> r.value < |s.clients|
  {
    var id, secret := Or(creds.id, creds.basicId), Or(creds.secret, creds.basicSecret);
    if id == "" then None else
      match FindClient(s.clients, id)
      case None => None
      case Some(c) =>
        var client := s.clients[c];
        if client.isPublic then (if secret != "" then None else Some(c))
        else if client.secretHash == "" || secret == "" || !cfg.verify(secret, client.secretHash) then None
        else Some(c)
  }

  // ---------------------------------------------------------------- issuing tokens to a user

  /** `issue_tokens_for_user` refuses an inactive or locked user. */
  function IssueGate(user: User, now: nat): Option<Error> {
    if !user.active then Some(InvalidGrant) else if Locked(user, now) then Some(AccessDenied) else None
  }

  function ResetLockout(s: State, u: nat): State
    requires u < |s.users|
  {
    s.(users := s.users[u := s.users[u].(failed := 0, lockedUntil := None)])
  }

  function NewRow(cfg: Config, s: State, u: nat, c: nat, scope: string, raw: string): Refresh {
    Refresh(cfg.sha(raw), Some(u), c, scope, s.now + cfg.refreshLife, None, None)
  }

  function IssuedScope(s: State, u: nat, c: nat, scope: string): string
    requires u < |s.users| && c < |s.clients|
  {
    UserScope(scope, s.clients[c].scopes, s.users[u].roles)
  }

  /** The tables after a successful issue. */
  function Issued(cfg: Config, s: State, u: nat, c: nat, scope: string, how: LoginMethod, raw: string,
                  origin: Origin): State
    requires u < |s.users| && c < |s.clients|
  {
    ResetLockout(s, u).(
      refresh := s.refresh + [NewRow(cfg, s, u, c, IssuedScope(s, u, c, scope), raw)],
      births := s.births + [Birth(s.now, origin)],
      audits := s.audits + [Audit(Some(u), s.clients[c].clientId, how, true, NoReason)])
  }

  /** Mints an access token and a first refresh token. `before` is what a rollback restores. */
  function Issue(cfg: Config, before: State, s: State, u: nat, c: nat, scope: string, how: LoginMethod,
                 raw: string, origin: Origin): Outcome
    requires u < |s.users| && c < |s.clients|
  {
    if FindRefresh(s.refresh, cfg.sha(raw)).Some? then Outcome(before, Refused(ServerError))
    else
      var sc := IssuedScope(s, u, c, scope);
      Outcome(Issued(cfg, s, u, c, scope, how, raw, origin),
              Tokens(MintAccess(cfg, s.now, UserSubject(u), sc, s.clients[c].clientId), Some(raw), sc, None))
  }

  // ---------------------------------------------------------------- the token endpoint

  function GrantClientCredentials(cfg: Config, s: State, c: nat, scope: string): Outcome
    requires c < |s.clients|
  {
    var client := s.clients[c];
    if "client_credentials" !in client.grants then Outcome(s, Refused(UnsupportedGrant))
    else
      var sc := ClientScope(scope, client.scopes);
      Outcome(s, Tokens(MintAccess(cfg, s.now, ClientSubject(client.clientId), sc, client.clientId), None, sc, None))
  }

  function Bumped(user: User, now: nat): User {
    user.(failed := user.failed + 1,
          lockedUntil := if user.failed + 1 >= MAX_FAILED then Some(now + LOCK_TIME) else user.lockedUntil)
  }

  /** The user whose password a request gets to try: known, active, not locked, and asked for by a
      confidential client that may use the password grant. */
  function PasswordCandidate(cfg: Config, s: State, c: nat, username: string): (r: Option<nat>)
    requires c < |s.clients|
    ensures r.Some? ==> r.value < |s.users|
  {
    if !PasswordAllowed(cfg, s.clients[c]) then None else
      var found := FindUser(s.users, Normal(cfg.lower, username));
      if found.Some? && IssueGate(s.users[found.value], s.now) == None then found else None
  }

  predicate PasswordAllowed(cfg: Config, client: Client) {
    cfg.passwordEnabled && client.allowPassword && "password" in client.grants && !client.isPublic
  }

  function GrantPassword(cfg: Config, s: State, c: nat, username: string, password: string, scope: string,
                         raw: string): Outcome
    requires c < |s.clients|
  {
    var client := s.clients[c];
    var found := FindUser(s.users, Normal(cfg.lower, username));
    if !PasswordAllowed(cfg, client) then
      var unsupported := !cfg.passwordEnabled || !client.allowPassword || "password" !in client.grants;
      Outcome(s, Refused(if unsupported then UnsupportedGrant else UnauthorizedClient))
    else match PasswordCandidate(cfg, s, c, username)
      case None =>
        var locked := found.Some? && s.users[found.value].active;
        Outcome(AddAudit(s, Audit(found, client.clientId, ByPassword, false, if locked then LockedOut
            else InvalidCredentials)),
                Refused(if locked then AccessDenied else InvalidGrant))
      case Some(u) =>
        if cfg.verify(password, s.users[u].passwordHash) then
          Issue(cfg, s, s, u, c, scope, ByPassword, raw, FromLogin(ByPassword))
        else
          var bumped := s.(users := s.users[u := Bumped(s.users[u], s.now)]);
          Outcome(AddAudit(bumped, Audit(found, client.clientId, ByPassword, false, InvalidCredentials)),
              Refused(InvalidGrant))
  }

  /** The scope and subject of the next access token of a refresh row, unless its user is gone or inactive. */
  function RotationGrant(s: State, c: nat, row: Refresh): Option<(Subject, string)>
    requires c < |s.clients|
  {
    var client := s.clients[c];
    match row.user
    case None => Some((ClientSubject(client.clientId), ScopeIntersect(row.scope, client.scopes)))
    case Some(u) =>
      if u < |s.users| && s.users[u].active then
        Some((UserSubject(u), UserScope(row.scope, client.scopes, s.users[u].roles)))
      else None
  }

  /** The tables after row `i` has been replaced by a new row. */
  function Rotated(cfg: Config, s: State, i: nat, c: nat, scope: string, raw: string): State
    requires i < |s.refresh| && c < |s.clients|
  {
    var row, j := s.refresh[i], |s.refresh|;
    s.(refresh := s.refresh[i := row.(revokedAt := Some(s.now), replacedBy := Some(j))]
                  + [Refresh(cfg.sha(raw), row.user, c, scope, s.now + cfg.refreshLife, None, None)],
       births := s.births + [Birth(s.now, FromRotation(i))],
       audits := s.audits + [Audit(row.user, s.clients[c].clientId, ByRefresh, true, Refreshed)])
  }

  function GrantRefresh(cfg: Config, s: State, c: nat, token: string, raw: string): Outcome
    requires c < |s.clients|
  {
    if "refresh_token" !in s.clients[c].grants then Outcome(s, Refused(UnsupportedGrant))
    else match FindRefresh(s.refresh, cfg.sha(token))
      case None => Outcome(s, Refused(InvalidGrant))
      case Some(i) =>
        var row := s.refresh[i];
        if !Live(row, s.now) || row.client != c then Outcome(s, Refused(InvalidGrant))
        else match RotationGrant(s, c, row)
          case None => Outcome(s, Refused(InvalidGrant))
          case Some((sub, sc)) =>
            if FindRefresh(s.refresh, cfg.sha(raw)).Some? then Outcome(s, Refused(ServerError))
            else Outcome(Rotated(cfg, s, i, c, sc, raw),
                         Tokens(MintAccess(cfg, s.now, sub, sc, s.clients[c].clientId), Some(raw), sc, None))
  }

  /** Everything `grant_authorization_code` checks before it consumes the code: the code is known, unused
      and in time, was registered for this client and redirect URI, the verifier matches, and the user
      may still log in. The result is the error, `None` when the exchange may go ahead. */
  function ExchangeGate(cfg: Config, s: State, c: nat, k: nat, redirectUri: string, verifier: string): Option<Error>
    requires c < |s.clients| && k < |s.codes|
  {
    var code := s.codes[k];
    if code.consumedAt.Some? || code.expiresAt < s.now then Some(InvalidGrant)
    else if code.client != c || code.redirectUri != redirectUri || verifier == "" then Some(InvalidGrant)
    else match VerifyS256(cfg.sha, verifier, code.challenge)
      case None => Some(ServerError)
      case Some(false) => Some(InvalidGrant)
      case Some(true) =>
        if code.user >= |s.users| || !s.users[code.user].active then Some(InvalidGrant)
        else if s.clients[c].isPublic && s.users[code.user].kind != Customer then Some(InvalidGrant)
        else None
  }

  function Consumed(s: State, k: nat): State
    requires k < |s.codes|
  {
    s.(codes := s.codes[k := s.codes[k].(consumedAt := Some(s.now))])
  }

  /** The code is consumed before the lock on the user is looked at, so a refusal keeps it consumed. */
  function GrantCode(cfg: Config, s: State, c: nat, code: string, redirectUri: string, verifier: string,
                     raw: string): Outcome
    requires c < |s.clients|
  {
    if "authorization_code" !in s.clients[c].grants then Outcome(s, Refused(UnsupportedGrant))
    else match FindCode(s.codes, cfg.sha(code))
      case None => Outcome(s, Refused(InvalidGrant))
      case Some(k) =>
        match ExchangeGate(cfg, s, c, k, redirectUri, verifier)
        case Some(error) => Outcome(s, Refused(error))
        case None =>
          var used, u := Consumed(s, k), s.codes[k].user;
          match IssueGate(used.users[u], s.now)
          case Some(error) => Outcome(used, Refused(error))
          case None => Issue(cfg, s, used, u, c, s.codes[k].scope, ByCode, raw, FromCode(k, redirectUri, verifier))
  }

  datatype Grant =
    | ClientCredentials(scope: string)
    | Password(username: string, password: string, scope: string, raw: string)
    | RefreshToken(token: string, raw: string)
    | AuthorizationCode(code: string, redirectUri: string, verifier: string, raw: string)

  /** `POST /oauth/token`. `raw` is the random refresh token drawn for the reply. */
  function Token(cfg: Config, s: State, creds: Creds, grant: Grant): Outcome {
    match AuthenticateClient(cfg, s, creds)
    case None => Outcome(s, Refused(InvalidClient))
    case Some(c) =>
      match grant
      case ClientCredentials(scope) => GrantClientCredentials(cfg, s, c, scope)
      case Password(username, password, scope, raw) =>
        if username == "" || password == "" then Outcome(s, Refused(InvalidRequest))
        else GrantPassword(cfg, s, c, username, password, scope, raw)
      case RefreshToken(token, raw) =>
        if token == "" then Outcome(s, Refused(InvalidRequest)) else GrantRefresh(cfg, s, c, token, raw)
      case AuthorizationCode(code, redirectUri, verifier, raw) =>
        if code == "" || redirectUri == "" then Outcome(s, Refused(InvalidRequest))
        else GrantCode(cfg, s, c, code, redirectUri, verifier, raw)
  }

  /** `POST /oauth/revoke`: an empty or unknown token changes nothing. */
  function Revoke(cfg: Config, s: State, token: string): Outcome {
    if token == "" then Outcome(s, Done) else
      match FindRefresh(s.refresh, cfg.sha(token))
      case None => Outcome(s, Done)
      case Some(i) =>
        if s.refresh[i].revokedAt.Some? then Outcome(s, Done)
        else Outcome(s.(refresh := s.refresh[i := s.refresh[i].(revokedAt := Some(s.now))]), Done)
  }

  // ---------------------------------------------------------------- the authorization endpoint

  datatype AuthorizeRequest = AuthorizeRequest(
    clientId: string, redirectUri: string, responseType: string, scope: string, state: string,
    challenge: string, challengeMethod: string, cookie: Option<Claims>, raw: string)

  /** `method.strip().upper() == "S256"`; upper-casing also maps the long s to `S`. */
  predicate IsS256(m: string) { Strip(m) in {"S256", "s256", "\U{017F}256"} }

  /** The stored row of a code that is being registered. */
  function NewCode(cfg: Config, s: State, c: nat, u: nat, r: AuthorizeRequest): Code
    requires c < |s.clients| && u < |s.users|
  {
    Code(cfg.sha(r.raw), c, u, r.redirectUri, IssuedScope(s, u, c, r.scope), Strip(r.challenge),
         s.now + cfg.codeLife, None)
  }

  function RegisterGate(s: State, c: nat, u: nat): Option<string>
    requires c < |s.clients| && u < |s.users|
  {
    var client, user := s.clients[c], s.users[u];
    if !client.isPublic || "authorization_code" !in client.grants then Some("unauthorized_client")
    else if user.kind != Customer || !user.active || Locked(user, s.now) then Some("access_denied")
    else None
  }

  function WithState(params: map<string, string>, state: string): map<string, string> {
    if state == "" then params else params["state" := state]
  }

  function ErrorParams(error: string, state: string, description: string): map<string, string> {
    var p := WithState(map["error" := error], state);
    if description == "" then p else p["error_description" := description]
  }

  /** The user the browser-login cookie speaks for. */
  function CookieUser(s: State, cookie: Claims): Option<nat> {
    if cookie.BrowserLogin? && Decodes(cookie, s.now) && cookie.sub.UserSubject? && cookie.sub.id < |s.users|
    then Some(cookie.sub.id) else None
  }

  /** What is refused before a code is registered, with the description that is sent back. */
  function AuthorizeGate(s: State, c: nat, r: AuthorizeRequest): Option<(string, string)>
    requires c < |s.clients|
  {
    if Strip(r.responseType) != "code" then
      Some(("unsupported_response_type", "Only response_type=code is supported"))
    else if !s.clients[c].isPublic then
      Some(("unauthorized_client", "Authorization Code flow is for public clients only"))
    else if Strip(r.challenge) == "" || !IsS256(r.challengeMethod) then
      Some(("invalid_request", "code_challenge and code_challenge_method=S256 are required"))
    else match r.cookie
      case None =>
        Some(("login_required", "Sign in first (e.g. POST /oauth/federated/google or /oauth/federated/telegram)"))
      case Some(cookie) =>
        if CookieUser(s, cookie).Some? then None
        else if cookie.BrowserLogin? && Decodes(cookie, s.now) && cookie.sub.UserSubject? then
          Some(("login_required", "User not found"))
        else Some(("login_required", "Invalid or expired login session"))
  }

  /** A URI that `urlparse` refuses raises when the parameters are appended, and rolls back to `before`. */
  function RedirectTo(cfg: Config, before: State, s: State, uri: string, params: map<string, string>): Outcome {
    if Urls.Parse(cfg.authority, uri).None? then Outcome(before, Refused(ServerError))
    else Outcome(s, Redirect(uri, params))
  }

  /** The redirect for a known client and a registered redirect URI. */
  function AuthorizationRedirect(cfg: Config, s: State, c: nat, r: AuthorizeRequest): Outcome
    requires c < |s.clients|
  {
    match AuthorizeGate(s, c, r)
    case Some((error, description)) => RedirectTo(cfg, s, s, r.redirectUri, ErrorParams(error, r.state, description))
    case None =>
      var u := CookieUser(s, r.cookie.value).value;
      match RegisterGate(s, c, u)
      case Some(error) => RedirectTo(cfg, s, s, r.redirectUri, ErrorParams(error, r.state, ""))
      case None =>
        if FindCode(s.codes, cfg.sha(r.raw)).Some? then Outcome(s, Refused(ServerError))
        else RedirectTo(cfg, s, s.(codes := s.codes + [NewCode(cfg, s, c, u, r)]), r.redirectUri,
                        WithState(map["code" := r.raw], r.state))
  }

  /** `GET /oauth/authorize`. */
  function Authorize(cfg: Config, s: State, r: AuthorizeRequest): Outcome {
    match FindClient(s.clients, Strip(r.clientId))
    case None => Outcome(s, Refused(InvalidRequest))
    case Some(c) =>
      if r.redirectUri !in s.clients[c].redirectUris then Outcome(s, Refused(InvalidRequest))
      else AuthorizationRedirect(cfg, s, c, r)
  }

  // ---------------------------------------------------------------- federated login

  const TELEGRAM_DOMAIN := "@telegram.federated.zhuchka"

  function TelegramEmail(subject: string): string { "tg." + subject + TELEGRAM_DOMAIN }

  function SyntheticEmail(id: int): string { TelegramEmail(Decimal(id)) }

  datatype Resolution = Denied(error: Error) | Resolved(state: State, user: nat)

  function Linked(s: State, u: nat, provider: Provider, subject: string): State {
    s.(idents := s.idents + [Identity(u, provider, subject)])
  }

  /** The user of an external identity: the linked one; else the one with this e-mail, who is linked
      now; else a new customer. Staff are refused. */
  function Resolve(s: State, provider: Provider, subject: string, email: string, passwordHash: string): (r: Resolution)
    ensures r.Resolved? ==> r.user < |r.state.users|
  {
    match FindIdentity(s.idents, provider, subject)
    case Some(k) =>
      if s.idents[k].user >= |s.users| then Denied(ServerError)
      else if s.users[s.idents[k].user].kind == Staff then Denied(StaffDenied)
      else Resolved(s, s.idents[k].user)
    case None =>
      match FindUser(s.users, email)
      case Some(u) =>
        if s.users[u].kind == Staff then Denied(StaffDenied)
        else Resolved(Linked(s, u, provider, subject), u)
      case None =>
        var created := s.(users := s.users + [User(email, Customer, passwordHash, true, None, 0, {})]);
        Resolved(Linked(created, |s.users|, provider, subject), |s.users|)
  }

  function WithCookie(cfg: Config, now: nat, reply: Reply): Reply {
    if reply.Tokens? then reply.(cookie := Some(MintBrowserLogin(cfg, now, reply.access.sub))) else reply
  }

  /** The part both providers share, after the assertion has been verified. A link or a user created
      here stays even if the token issue is refused. */
  function FederatedLogin(cfg: Config, s: State, provider: Provider, subject: string, email: string,
                          clientId: string, scope: string, raw: string, passwordHash: string): Outcome
  {
    match AuthenticateClient(cfg, s, Creds(clientId, "", "", ""))
    case None => Outcome(s, Refused(UnauthorizedClient))
    case Some(c) =>
      if !s.clients[c].isPublic then Outcome(s, Refused(UnauthorizedClient))
      else match Resolve(s, provider, subject, email, passwordHash)
        case Denied(error) => Outcome(s, Refused(error))
        case Resolved(linked, u) =>
          assert linked.clients == s.clients;
          match IssueGate(linked.users[u], s.now)
          case Some(error) => Outcome(linked, Refused(error))
          case None =>
            var how := if provider == Telegram then ByTelegram else ByGoogle;
            var out := Issue(cfg, s, linked, u, c, scope, how, raw, FromLogin(how));
            out.(reply := WithCookie(cfg, s.now, out.reply))
  }

  /** The body of a Telegram login request; absent texts are `None`. */
  datatype TelegramRequest = TelegramRequest(
    clientId: string, scope: string, id: int, authDate: int, hash: string,
    profile: map<string, string>, raw: string, passwordHash: string)

  const PROFILE_FIELDS: set<string> := {"first_name", "last_name", "username", "photo_url"}

  /** The widget payload the router rebuilds from the request. */
  function WidgetPayload(r: TelegramRequest): TelegramWidget.Payload {
    (map k | k in r.profile && k in PROFILE_FIELDS :: TelegramWidget.Text(r.profile[k]))
      ["id" := TelegramWidget.Number(r.id)]
      ["auth_date" := TelegramWidget.Number(r.authDate)]
      ["hash" := TelegramWidget.Text(r.hash)]
  }

  function TelegramLogin(cfg: Config, s: State, r: TelegramRequest): Outcome {
    if cfg.botToken == "" then Outcome(s, Refused(FederatedDisabled))
    else match TelegramWidget.Verdict(cfg.mac, cfg.parseInt, WidgetPayload(r), cfg.botToken, s.now)
      case None => Outcome(s, Refused(ServerError))
      case Some(false) => Outcome(s, Refused(InvalidGrant))
      case Some(true) =>
        FederatedLogin(cfg, s, Telegram, Decimal(r.id), SyntheticEmail(r.id), r.clientId, r.scope, r.raw,
            r.passwordHash)
  }

  /** A Google login request: the `sub` and `email` claims of the ID token, absent when it is rejected. */
  datatype GoogleRequest = GoogleRequest(
    clientId: string, scope: string, idToken: Option<(string, string)>, raw: string, passwordHash: string)

  function GoogleLogin(cfg: Config, s: State, r: GoogleRequest): Outcome {
    if !cfg.googleEnabled then Outcome(s, Refused(FederatedDisabled))
    else match r.idToken
      case None => Outcome(s, Refused(InvalidGrant))
      case Some((sub, email)) =>
        if sub == "" || Normal(cfg.lower, email) == "" then Outcome(s, Refused(InvalidGrant))
        else FederatedLogin(cfg, s, Google, sub, Normal(cfg.lower, email), r.clientId, r.scope, r.raw, r.passwordHash)
  }

  // ---------------------------------------------------------------- admin edits

  function CreateUser(cfg: Config, s: State, email: string, kind: Kind, passwordHash: string): Outcome {
    var e := Normal(cfg.lower, email);
    if FindUser(s.users, e).Some? then Outcome(s, Refused(EmailExists))
    else
      var roles: set<string> := if "user" in s.roleNames then {"user"} else {};
      Outcome(s.(users := s.users + [User(e, kind, passwordHash, true, None, 0, roles)]), Done)
  }

  datatype UserPatch = UserPatch(email: Option<string>, active: Option<bool>, kind: Option<Kind>,
                                 passwordHash: Option<string>)

  function GetOr<T>(o: Option<T>, default: T): T { if o.Some? then o.value else default }

  function PatchUser(cfg: Config, s: State, u: nat, p: UserPatch): Outcome {
    if u >= |s.users| then Outcome(s, Refused(NotFound))
    else
      var user := s.users[u];
      var e := if p.email.Some? then Normal(cfg.lower, p.email.value) else user.email;
      if e != user.email && FindUser(s.users, e).Some? then Outcome(s, Refused(EmailExists))
      else
        var patched := user.(email := e, active := GetOr(p.active, user.active), kind := GetOr(p.kind, user.kind),
                             passwordHash := GetOr(p.passwordHash, user.passwordHash));
        Outcome(s.(users := s.users[u := patched]), Done)
  }

  function SoftDeleteUser(s: State, u: nat): Outcome {
    if u >= |s.users| then Outcome(s, Refused(NotFound))
    else Outcome(s.(users := s.users[u := s.users[u].(active := false)]), Done)
  }

  /** The leading names that are known roles. */
  function KnownPrefix(names: seq<string>, known: set<string>): seq<string> {
    if names == [] || Strip(names[0]) !in known then [] else [Strip(names[0])] + KnownPrefix(names[1..], known)
  }

  /** The old roles are dropped and the leading known names are granted; a name granted twice breaks
      the primary key. The first unknown name ends the request with an error, after these changes. */
  function ReplaceUserRoles(s: State, u: nat, names: seq<string>): Outcome {
    if u >= |s.users| then Outcome(s, Refused(NotFound))
    else
      var granted := KnownPrefix(names, s.roleNames);
      if |Elems(granted)| < |granted| then Outcome(s, Refused(ServerError))
      else Outcome(s.(users := s.users[u := s.users[u].(roles := Elems(granted))]),
                   if |granted| == |names| then Done else Refused(UnknownRole))
  }

  function AddUserRoles(s: State, u: nat, names: seq<string>): Outcome {
    if u >= |s.users| then Outcome(s, Refused(NotFound))
    else
      var granted := KnownPrefix(names, s.roleNames);
      Outcome(s.(users := s.users[u := s.users[u].(roles := s.users[u].roles + Elems(granted))]),
              if |granted| == |names| then Done else Refused(UnknownRole))
  }

  const ALL_GRANTS := ["authorization_code", "refresh_token", "client_credentials", "password"]
  const STANDARD_SCOPES := ["openid", "profile", "email"]

  function OrDefault(xs: seq<string>, default: seq<string>): seq<string> { if xs == [] then default else xs }

  /** The client to create is given as a row whose empty lists stand for the defaults. */
  function CreateClient(s: State, client: Client): Outcome {
    var id := Strip(client.clientId);
    if FindClient(s.clients, id).Some? then Outcome(s, Refused(ClientIdExists))
    else
      var row := client.(clientId := id, grants := OrDefault(client.grants, ALL_GRANTS),
                         scopes := OrDefault(client.scopes, STANDARD_SCOPES),
                         secretHash := if client.isPublic then "" else client.secretHash);
      Outcome(s.(clients := s.clients + [row]), Done)
  }

  datatype ClientPatch = ClientPatch(
    isPublic: Option<bool>, redirectUris: Option<seq<string>>, grants: Option<seq<string>>,
    scopes: Option<seq<string>>, allowPassword: Option<bool>, secretHash: Option<string>)

  function PatchClient(s: State, c: nat, p: ClientPatch): Outcome {
    if c >= |s.clients| then Outcome(s, Refused(NotFound))
    else
      var was := s.clients[c];
      var patched := was.(
        isPublic := GetOr(p.isPublic, was.isPublic), redirectUris := GetOr(p.redirectUris, was.redirectUris),
        grants := GetOr(p.grants, was.grants), scopes := GetOr(p.scopes, was.scopes),
        allowPassword := GetOr(p.allowPassword, was.allowPassword), secretHash := GetOr(p.secretHash, was.secretHash));
      Outcome(s.(clients := s.clients[c := patched]), Done)
  }

  // ---------------------------------------------------------------- bootstrap

  /** `have` followed by what of `want` it lacks, in the order of `want` and without repetition. */
  function Merged(have: seq<string>, want: seq<string>): seq<string>
    decreases |want|
  {
    if want == [] then have else
      Merged(if want[0] in have then have else have + [want[0]], want[1..])
  }

  const MARKET_GRANTS := ["authorization_code", "refresh_token"]

  function MarketUris(cfg: Config): seq<string> { OrDefault(Split(cfg.publicUris), ["http://127.0.0.1/callback"]) }

  function BootClient(cfg: Config): Client {
    Client(cfg.bootClientId, cfg.bootSecretHash, false, ["http://127.0.0.1/callback"],
           ALL_GRANTS, STANDARD_SCOPES + ["admin"], true)
  }

  function MarketClient(cfg: Config): Client {
    Client(cfg.publicClientId, "", true, MarketUris(cfg), MARKET_GRANTS, STANDARD_SCOPES, false)
  }

  function EnsureBootClient(cfg: Config, s: State): State {
    if FindClient(s.clients, cfg.bootClientId).Some? then s else s.(clients := s.clients + [BootClient(cfg)])
  }

  function EnsureMarketClient(cfg: Config, s: State): State {
    match FindClient(s.clients, cfg.publicClientId)
    case None => s.(clients := s.clients + [MarketClient(cfg)])
    case Some(c) =>
      var was := s.clients[c];
      s.(clients := s.clients[c := was.(grants := Merged(was.grants, MARKET_GRANTS),
                                        redirectUris := Merged(was.redirectUris, MarketUris(cfg)))])
  }

  function EnsureAdmin(cfg: Config, s: State): State {
    if cfg.adminEmail == "" || cfg.adminPassword == "" then s else
      var email := Normal(cfg.lower, cfg.adminEmail);
      if FindUser(s.users, email).Some? then s
      else s.(users := s.users + [User(email, Staff, cfg.adminHash, true, None, 0, {"admin"})])
  }

  function Bootstrap(cfg: Config, s: State): State {
    EnsureAdmin(cfg, EnsureMarketClient(cfg, EnsureBootClient(cfg, s.(roleNames := s.roleNames + {"admin", "user"}))))
  }
}
