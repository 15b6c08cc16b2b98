/** Token introspection (RFC 7662) agrees with what the token endpoint would do. */
module Introspection {
  import opened Text
  import opened Clock
  import opened Store
  import Pkce
  import opened Steps
  import opened Machine
  import opened Effects
  import opened Chains
  import TelegramWidget

  /** A presented token: a signed record, or any other text. */
  datatype Token = Jwt(claims: Claims) | Opaque(text: string)

  datatype TokenType = Bearer | RefreshTokenType

  datatype Response =
    | Inactive
    | Active(tokenType: TokenType, scope: string, clientId: string, sub: Subject, exp: nat, iat: Option<nat>)

  function IntrospectAccess(token: Token, now: nat): Response {
    match token
    case Jwt(Access(sub, scope, clientId, iat, exp)) =>
      if Decodes(token.claims, now) then Active(Bearer, scope, clientId, sub, exp, Some(iat)) else Inactive
    case _ => Inactive
  }

  function RowClientId(s: State, row: Refresh): string {
    if row.client < |s.clients| then s.clients[row.client].clientId else ""
  }

  function RowSubject(s: State, row: Refresh): Subject {
    match row.user case Some(u) => UserSubject(u) case None => ClientSubject(RowClientId(s, row))
  }

  /** A signed record is not the text of a stored refresh token. */
  function IntrospectRefresh(cfg: Config, s: State, token: Token): Response {
    match token
    case Jwt(_) => Inactive
    case Opaque(raw) =>
      match FindRefresh(s.refresh, cfg.sha(raw))
      case None => Inactive
      case Some(i) =>
        var row := s.refresh[i];
        if !Live(row, s.now) then Inactive
        else Active(RefreshTokenType, row.scope, RowClientId(s, row), RowSubject(s, row), row.expiresAt / SECOND, None)
  }

  /** A hint restricts the search; without one a JWT is tried as an access token first. */
  function Introspect(cfg: Config, s: State, token: Token, hint: string): Response {
    var h := Normal(cfg.lower, hint);
    if h == "refresh_token" then IntrospectRefresh(cfg, s, token)
    else if h == "access_token" then IntrospectAccess(token, s.now)
    else
      var r := IntrospectAccess(token, s.now);
      if r.Active? then r else IntrospectRefresh(cfg, s, token)
  }

  // ---------------------------------------------------------------- refresh tokens

  predicate RotationAllowed(cfg: Config, s: State, c: nat, row: Refresh, raw: string)
    requires c < |s.clients|
  {
    && "refresh_token" in s.clients[c].grants && row.client == c && RotationGrant(s, c, row).Some?
    && FindRefresh(s.refresh, cfg.sha(raw)).None?
  }

  /** Without a hint, a refresh token is active if and only if the row gate of the refresh grant passes:
      a rotation succeeds exactly when the token is active and its client, its user and the new token
      allow it. The reported client and subject are those of the access token a rotation mints. */
  lemma RefreshAgreesWithGrant(cfg: Config, s: State, c: nat, token: string, raw: string)
    requires c < |s.clients|
    ensures var r, out, found := Introspect(cfg, s, Opaque(token), ""), GrantRefresh(cfg, s, c, token, raw),
        FindRefresh(s.refresh, cfg.sha(token));
            && (r.Active? <==> found.Some? && Live(s.refresh[found.value], s.now))
            && (out.reply.Tokens? <==> r.Active? && RotationAllowed(cfg, s, c, s.refresh[found.value], raw))
            && (out.reply.Tokens? ==> r.clientId == out.reply.access.clientId && r.sub == out.reply.access.sub)
  {
    assert Normal(cfg.lower, "") == "";
  }

  lemma FindAppended(rows: seq<Refresh>, row: Refresh, hash: Pkce.Digest)
    ensures FindRefresh(rows + [row], hash) == if row.hash == hash then Some(|rows|) else FindRefresh(rows, hash)
  {
    assert (rows + [row])[..|rows|] == rows;
  }

  /** The newest row of `t` is the refresh token `raw` of this reply. */
  predicate NewestRow(cfg: Config, t: State, raw: string, access: Claims) {
    && t.refresh != [] && access.Access?
    && var row := t.refresh[|t.refresh| - 1];
    && row.hash == cfg.sha(raw) && row.scope == access.scope && Unused(row) && row.expiresAt == t.now + cfg.refreshLife
    && RowClientId(t, row) == access.clientId && RowSubject(t, row) == access.sub
  }

  predicate AnswersWithNewestRow(cfg: Config, out: Outcome) {
    out.reply.Tokens? && out.reply.refresh.Some? ==> NewestRow(cfg, out.state, out.reply.refresh.value,
        out.reply.access)
  }

  lemma IssuedNewestRow(cfg: Config, s: State, u: nat, c: nat, scope: string, how: LoginMethod, raw: string,
                        origin: Origin)
    requires u < |s.users| && c < |s.clients|
    ensures var sc := IssuedScope(s, u, c, scope);
            NewestRow(cfg, Issued(cfg, s, u, c, scope, how, raw, origin), raw,
                      MintAccess(cfg, s.now, UserSubject(u), sc, s.clients[c].clientId))
  {
  }

  lemma PasswordNewestRow(cfg: Config, s: State, c: nat, username: string, password: string, scope: string, raw: string)
    requires c < |s.clients|
    ensures AnswersWithNewestRow(cfg, GrantPassword(cfg, s, c, username, password, scope, raw))
  {
    var u := PasswordCandidate(cfg, s, c, username);
    if u.Some? {
      IssuedNewestRow(cfg, s, u.value, c, scope, ByPassword, raw, FromLogin(ByPassword));
    }
  }

  lemma RotatedNewestRow(cfg: Config, s: State, c: nat, token: string, raw: string)
    requires c < |s.clients|
    ensures AnswersWithNewestRow(cfg, GrantRefresh(cfg, s, c, token, raw))
  {
  }

  lemma CodeNewestRow(cfg: Config, s: State, c: nat, code: string, redirectUri: string, verifier: string, raw: string)
    requires c < |s.clients|
    ensures AnswersWithNewestRow(cfg, GrantCode(cfg, s, c, code, redirectUri, verifier, raw))
  {
    CodeOutcome(cfg, s, c, code, redirectUri, verifier, raw);
    if GrantCode(cfg, s, c, code, redirectUri, verifier, raw).reply.Tokens? {
      var k := FindCode(s.codes, cfg.sha(code)).value;
      IssuedNewestRow(cfg, Consumed(s, k), s.codes[k].user, c, s.codes[k].scope, ByCode, raw,
          FromCode(k, redirectUri, verifier));
    }
  }

  lemma TokenNewestRow(cfg: Config, s: State, creds: Creds, grant: Grant)
    ensures AnswersWithNewestRow(cfg, Steps.Token(cfg, s, creds, grant))
  {
    match AuthenticateClient(cfg, s, creds) {
      case None =>
      case Some(c) =>
        match grant {
          case ClientCredentials(_) =>
          case Password(username, password, scope, raw) => PasswordNewestRow(cfg, s, c, username, password, scope, raw);
          case RefreshToken(token, raw) => RotatedNewestRow(cfg, s, c, token, raw);
          case AuthorizationCode(code, redirectUri, verifier, raw) =>
            CodeNewestRow(cfg, s, c, code, redirectUri, verifier, raw);
        }
    }
  }

  lemma FederatedNewestRow(cfg: Config, s: State, provider: Provider, subject: string, email: string,
                           clientId: string, scope: string, raw: string, passwordHash: string)
    ensures AnswersWithNewestRow(cfg, FederatedLogin(cfg, s, provider, subject, email, clientId, scope, raw,
        passwordHash))
  {
    FederatedOutcome(cfg, s, provider, subject, email, clientId, scope, raw, passwordHash);
    ResolveKeepsTokens(s, provider, subject, email, passwordHash);
    var out := FederatedLogin(cfg, s, provider, subject, email, clientId, scope, raw, passwordHash);
    if out.reply.Tokens? {
      var r := Resolve(s, provider, subject, email, passwordHash);
      var c := AuthenticateClient(cfg, s, Creds(clientId, "", "", "")).value;
      IssuedNewestRow(cfg, r.state, r.user, c, scope, HowOf(provider), raw, FromLogin(HowOf(provider)));
      assert out.reply.refresh == Some(raw);
    }
  }

  lemma StepNewestRow(cfg: Config, s: State, e: Event)
    ensures AnswersWithNewestRow(cfg, Step(cfg, s, e))
  {
    hide Steps.Token, Authorize, FederatedLogin, TelegramWidget.Verdict, Bootstrap, AuthenticateClient, NewestRow;
    match e {
      case AuthorizeRequested(r) => AuthorizeOnlyAddsCodes(cfg, s, r);
      case TokenRequest(creds, grant) => TokenNewestRow(cfg, s, creds, grant);
      case TelegramRequested(r) =>
        FederatedNewestRow(cfg, s, Telegram, Decimal(r.id), SyntheticEmail(r.id), r.clientId, r.scope, r.raw,
            r.passwordHash);
      case GoogleRequested(r) =>
        if r.idToken.Some? {
          FederatedNewestRow(cfg, s, Google, r.idToken.value.0, Normal(cfg.lower, r.idToken.value.1),
                             r.clientId, r.scope, r.raw, r.passwordHash);
        }
      case _ =>
    }
  }

  lemma NewestRowIntrospects(cfg: Config, t: State, raw: string, access: Claims)
    requires NewestRow(cfg, t, raw, access)
    ensures Introspect(cfg, t, Opaque(raw), "")
         == Active(RefreshTokenType, access.scope, access.clientId, access.sub, (t.now + cfg.refreshLife) / SECOND,
             None)
  {
    assert Normal(cfg.lower, "") == "";
    var n := |t.refresh| - 1;
    FindAppended(t.refresh[..n], t.refresh[n], cfg.sha(raw));
    assert t.refresh == t.refresh[..n] + [t.refresh[n]];
  }

  /** A refresh token that has just been handed out introspects as the access token beside it reads:
      same scope, client and subject. */
  lemma IssuedTokenIntrospects(cfg: Config, s: State, e: Event)
    ensures var out := Step(cfg, s, e);
            out.reply.Tokens? && out.reply.refresh.Some? ==>
              out.reply.access.Access? &&
              Introspect(cfg, out.state, Opaque(out.reply.refresh.value), "")
              == Active(RefreshTokenType, out.reply.access.scope, out.reply.access.clientId, out.reply.access.sub,
                        (out.state.now + cfg.refreshLife) / SECOND, None)
  {
    var out := Step(cfg, s, e);
    StepNewestRow(cfg, s, e);
    if out.reply.Tokens? && out.reply.refresh.Some? {
      NewestRowIntrospects(cfg, out.state, out.reply.refresh.value, out.reply.access);
    }
  }

  lemma HashFindsRow(cfg: Config, s: State, i: nat)
    requires Forest(cfg, s) && i < |s.refresh|
    ensures FindRefresh(s.refresh, s.refresh[i].hash) == Some(i)
  {
  }

  /** A refresh token that has been revoked, rotated or has expired is inactive for good: in every
      continuation it introspects as inactive and no client can rotate it. */
  lemma {:induction false} SpentTokenStaysInactive(cfg: Config, s: State, es: seq<Event>, token: string, c: nat,
                                                   raw: string)
    requires Forest(cfg, s) && FindRefresh(s.refresh, cfg.sha(token)).Some?
    requires Introspect(cfg, s, Opaque(token), "") == Inactive
    ensures var t := Run(cfg, s, es);
            && Introspect(cfg, t, Opaque(token), "") == Inactive
            && (c < |t.clients| ==> GrantRefresh(cfg, t, c, token, raw).reply.Refused?)
  {
    var t, i := Run(cfg, s, es), FindRefresh(s.refresh, cfg.sha(token)).value;
    assert Normal(cfg.lower, "") == "";
    ForestRun(cfg, s, es);
    RunEvolves(cfg, s, es);
    assert RowEvolves(s.refresh[i], t.refresh[i]);
    HashFindsRow(cfg, t, i);
  }

  // ---------------------------------------------------------------- access tokens

  /** Without a hint, an access token reports exactly the claims it was minted with, from the moment it
      is minted until its expiry second, and is inactive from then on. */
  lemma AccessReportsClaims(cfg: Config, minted: nat, s: State, sub: Subject, scope: string, clientId: string)
    requires minted <= s.now
    ensures var claims := MintAccess(cfg, minted, sub, scope, clientId);
            && Introspect(cfg, s, Jwt(claims), "")
               == (if s.now < claims.exp * SECOND then Active(Bearer, scope, clientId, sub, claims.exp,
                   Some(claims.iat)) else Inactive)
            && (s.now + SECOND <= minted + cfg.accessLife ==> s.now < claims.exp * SECOND)
            && (s.now >= minted + cfg.accessLife ==> s.now >= claims.exp * SECOND)
  {
    assert Normal(cfg.lower, "") == "";
  }

  /** A browser-login token is never an active access token. */
  lemma BrowserLoginInactive(cfg: Config, s: State, claims: Claims, hint: string)
    requires claims.BrowserLogin?
    ensures Introspect(cfg, s, Jwt(claims), hint) == Inactive
  {
  }

  // ---------------------------------------------------------------- hints

  /** The answer for a signed record: its claims, exactly for an access token in time. */
  predicate ReportsClaims(claims: Claims, now: nat, r: Response) {
    r == if claims.Access? && claims.iat * 1_000_000 <= now < claims.exp * 1_000_000
         then Active(Bearer, claims.scope, claims.clientId, claims.sub, claims.exp, Some(claims.iat)) else Inactive
  }

  /** The answer for any other text: the row it is the token of, unless revoked or past its expiry. */
  predicate ReportsRow(cfg: Config, s: State, text: string, r: Response)
    requires Forest(cfg, s)
  {
    && ((forall i | 0 <= i < |s.refresh| :: s.refresh[i].hash != cfg.sha(text)) ==> r == Inactive)
    && forall i | 0 <= i < |s.refresh| && s.refresh[i].hash == cfg.sha(text) ::
         var row := s.refresh[i];
         assert RowOk(cfg, s, i);
         r == if row.revokedAt.Some? || row.expiresAt < s.now then Inactive
              else Active(RefreshTokenType, row.scope, s.clients[row.client].clientId,
                          UserSubject(row.user.value), row.expiresAt / 1_000_000, None)
  }

  lemma StoredReport(cfg: Config, s: State, text: string)
    requires Forest(cfg, s)
    ensures ReportsRow(cfg, s, text, IntrospectRefresh(cfg, s, Opaque(text)))
  {
    forall i | 0 <= i < |s.refresh| && s.refresh[i].hash == cfg.sha(text)
      ensures FindRefresh(s.refresh, cfg.sha(text)) == Some(i) && RowOk(cfg, s, i)
    {
      HashFindsRow(cfg, s, i);
    }
    hide FindRefresh, Forest;
  }

  /** What each hint does. `refresh_token` looks only among the stored rows, `access_token` only at signed
      records, and any other hint is no hint: then every token is recognised for what it is. */
  predicate HintObeyed(cfg: Config, s: State, token: Token, hint: string, r: Response)
    requires Forest(cfg, s)
  {
    var h := Lower(cfg.lower, Strip(hint));
    match token
    case Jwt(claims) => if h == "refresh_token" then r == Inactive else ReportsClaims(claims, s.now, r)
    case Opaque(text) => if h == "access_token" then r == Inactive else ReportsRow(cfg, s, text, r)
  }

  /** Introspection answers every token under every hint as the hint says. */
  lemma IntrospectExactly(cfg: Config, s: State, token: Token, hint: string)
    requires Forest(cfg, s)
    ensures HintObeyed(cfg, s, token, hint, Introspect(cfg, s, token, hint))
  {
    if token.Opaque? {
      StoredReport(cfg, s, token.text);
    }
    HintsDiffer();
    hide ReportsRow, Forest, Lower, Strip;
  }

  lemma HintsDiffer()
    ensures "refresh_token" != "access_token"
  {
    assert "refresh_token"[0] == 'r' && "access_token"[0] == 'a';
  }

  /** Letter case and outer whitespace of a hint do not matter. */
  lemma HintSpelling(cfg: Config, s: State, token: Token, pre: string, hint: string, post: string)
    requires CaseTableOk(cfg.lower) && AllSpace(pre) && AllSpace(post) && Stripped(hint)
    ensures Introspect(cfg, s, token, pre + hint + post) == Introspect(cfg, s, token, Lower(cfg.lower, hint))
  {
    NormalVariant(cfg.lower, pre, hint, post);
    NormalIdempotent(cfg.lower, pre + hint + post);
    hide Normal, Lower, IntrospectAccess, IntrospectRefresh;
  }
}
