/** The tables of the authorization server, its configuration, and the tokens it signs. Rows are
    never removed, so a row is identified by its position. Times are microseconds since the epoch. */
module Store {
  import opened Text
  import opened Pkce
  import opened Clock
  import TelegramWidget
  import UrlParts

  const MAX_FAILED := 5
  const LOCK_TIME := 900 * SECOND

  datatype Kind = Customer | Staff

  datatype User = User(email: string, kind: Kind, passwordHash: string, active: bool,
                       lockedUntil: Option<nat>, failed: nat, roles: set<string>)

  /** An empty `secretHash` is the null column. */
  datatype Client = Client(clientId: string, secretHash: string, isPublic: bool, redirectUris: seq<string>,
                           grants: seq<string>, scopes: seq<string>, allowPassword: bool)

  datatype Code = Code(hash: Digest, client: nat, user: nat, redirectUri: string, scope: string,
                       challenge: string, expiresAt: nat, consumedAt: Option<nat>)

  datatype Refresh = Refresh(hash: Digest, user: Option<nat>, client: nat, scope: string, expiresAt: nat,
                             revokedAt: Option<nat>, replacedBy: Option<nat>)

  datatype LoginMethod = ByPassword | ByRefresh | ByCode | ByTelegram | ByGoogle

  datatype Reason = NoReason | Refreshed | InvalidCredentials | LockedOut

  datatype Audit = Audit(user: Option<nat>, clientId: string, loginMethod: LoginMethod, success: bool, reason: Reason)

  datatype Provider = Telegram | Google

  datatype Identity = Identity(user: nat, provider: Provider, subject: string)

  /** How a refresh row came to be. Not a column: a history of the run, one entry per refresh row. */
  datatype Origin =
    | FromLogin(loginMethod: LoginMethod)
    | FromCode(code: nat, redirectUri: string, verifier: string)
    | FromRotation(previous: nat)

  datatype Birth = Birth(at: nat, origin: Origin)

  datatype State = State(now: nat, users: seq<User>, roleNames: set<string>, clients: seq<Client>,
                         codes: seq<Code>, refresh: seq<Refresh>, audits: seq<Audit>,
                         idents: seq<Identity>, births: seq<Birth>)

  const EMPTY := State(0, [], {}, [], [], [], [], [], [])

  datatype Config = Config(
    sha: Sha,                              // SHA-256 of a string
    verify: (string, string) -> bool,      // Argon2: does a secret match a stored hash
    mac: TelegramWidget.Mac,               // HMAC-SHA-256
    parseInt: TelegramWidget.ParseInt,     // int() of a string
    authority: UrlParts.AuthorityCheck,    // what urlparse checks of an authority beyond paired brackets
    lower: CaseTable,                      // lower-casing
    accessLife: nat, refreshLife: nat, codeLife: nat, browserLife: nat,
    passwordEnabled: bool, botToken: string, googleEnabled: bool,
    bootClientId: string, bootSecretHash: string,
    publicClientId: string, publicUris: string,
    adminEmail: string, adminPassword: string, adminHash: string)

  // ---------------------------------------------------------------- signed tokens

  datatype Subject = UserSubject(id: nat) | ClientSubject(clientId: string)

  /** The claims of a JWT, as an ideal signed record; `iat` and `exp` are whole seconds. */
  datatype Claims =
    | Access(sub: Subject, scope: string, clientId: string, iat: nat, exp: nat)
    | BrowserLogin(sub: Subject, iat: nat, exp: nat)

  function MintAccess(cfg: Config, now: nat, sub: Subject, scope: string, clientId: string): Claims {
    Access(sub, scope, clientId, now / SECOND, (now + cfg.accessLife) / SECOND)
  }

  function MintBrowserLogin(cfg: Config, now: nat, sub: Subject): Claims {
    BrowserLogin(sub, now / SECOND, (now + cfg.browserLife) / SECOND)
  }

  /** Signature, issuer and audience hold by construction; what decoding still checks is time. */
  predicate Decodes(claims: Claims, now: nat) { claims.iat * SECOND <= now < claims.exp * SECOND }

  // ---------------------------------------------------------------- replies

  datatype Error =
    | UnsupportedGrant | UnauthorizedClient | InvalidGrant | AccessDenied | InvalidRequest | InvalidClient
    | FederatedDisabled | StaffDenied | NotFound | EmailExists | ClientIdExists | UnknownRole
    | ServerError   // an unhandled exception: the transaction is rolled back

  datatype Reply =
    | Tokens(access: Claims, refresh: Option<string>, scope: string, cookie: Option<Claims>)
    | Redirect(uri: string, params: map<string, string>)
    | Done
    | Refused(error: Error)

  datatype Outcome = Outcome(state: State, reply: Reply)

  // ---------------------------------------------------------------- lookups

  function FindUser(users: seq<User>, email: string): (r: Option<nat>)
    ensures r.Some? ==> r.value < |users| && users[r.value].email == email
    ensures r.None? ==> forall i | 0 <= i < |users| :: users[i].email != email
  {
    if users == [] then None else
      var n := |users| - 1;
      if users[n].email == email then Some(n) else FindUser(users[..n], email)
  }

  function FindClient(clients: seq<Client>, clientId: string): (r: Option<nat>)
    ensures r.Some? ==> r.value < |clients| && clients[r.value].clientId == clientId
    ensures r.None? ==> forall i | 0 <= i < |clients| :: clients[i].clientId != clientId
  {
    if clients == [] then None else
      var n := |clients| - 1;
      if clients[n].clientId == clientId then Some(n) else FindClient(clients[..n], clientId)
  }

  function FindCode(codes: seq<Code>, hash: Digest): (r: Option<nat>)
    ensures r.Some? ==> r.value < |codes| && codes[r.value].hash == hash
    ensures r.None? ==> forall i | 0 <= i < |codes| :: codes[i].hash != hash
  {
    if codes == [] then None else
      var n := |codes| - 1;
      if codes[n].hash == hash then Some(n) else FindCode(codes[..n], hash)
  }

  function FindRefresh(rows: seq<Refresh>, hash: Digest): (r: Option<nat>)
    ensures r.Some? ==> r.value < |rows| && rows[r.value].hash == hash
    ensures r.None? ==> forall i | 0 <= i < |rows| :: rows[i].hash != hash
  {
    if rows == [] then None else
      var n := |rows| - 1;
      if rows[n].hash == hash then Some(n) else FindRefresh(rows[..n], hash)
  }

  function FindIdentity(idents: seq<Identity>, provider: Provider, subject: string): (r: Option<nat>)
    ensures r.Some? ==> r.value < |idents| && idents[r.value].provider == provider && idents[r.value].subject == subject
    ensures r.None? ==> forall i | 0 <= i < |idents| :: idents[i].provider != provider || idents[i].subject != subject
  {
    if idents == [] then None else
      var n := |idents| - 1;
      if idents[n].provider == provider && idents[n].subject == subject then Some(n)
      else FindIdentity(idents[..n], provider, subject)
  }

  predicate Locked(user: User, now: nat) { user.lockedUntil.Some? && user.lockedUntil.value > now }

  /** The gate on a stored refresh row: neither revoked nor past its expiry. */
  predicate Live(row: Refresh, now: nat) { row.revokedAt == None && now <= row.expiresAt }
}
