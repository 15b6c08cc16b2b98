/** Authorization codes over whole runs: single use and binding (section 4.1.2 of RFC 6749). */
module Codes {
  import opened Text
  import opened Scopes
  import opened Pkce
  import opened Store
  import opened Steps
  import opened Machine
  import opened Effects
  import opened Chains
  import TelegramWidget
  import Urls

  // ---------------------------------------------------------------- what one event does to codes

  datatype CodeEffect =
    | Untouched
    | Registered(code: Code)
    | Spent(k: nat)                                              // consumed, and the issue refused
    | Exchanged(k: nat, row: Refresh, redirectUri: string, verifier: string)

  predicate NoCodeBirths(s: State, t: State) {
    && |s.births| <= |t.births|
    && forall j | |s.births| <= j < |t.births| :: !t.births[j].origin.FromCode?
  }

  predicate Spendable(s: State, k: nat) {
    k < |s.codes| && s.codes[k].consumedAt == None && s.now <= s.codes[k].expiresAt
  }

  ghost predicate CodeDid(cfg: Config, s: State, t: State, effect: CodeEffect) {
    match effect
    case Untouched => t.codes == s.codes && NoCodeBirths(s, t)
    case Registered(code) =>
      && t.codes == s.codes + [code] && t.births == s.births
      && code.consumedAt == None && code.client < |s.clients| && code.user < |s.users| && Stripped(code.challenge)
      && code.expiresAt == s.now + cfg.codeLife
      && GrantedUnder(code.scope, s.clients[code.client].scopes)
      && (forall k | 0 <= k < |s.codes| :: s.codes[k].hash != code.hash)
    case Spent(k) => Spendable(s, k) && t.codes == Consumed(s, k).codes && t.births == s.births
    case Exchanged(k, row, redirectUri, verifier) =>
      && Spendable(s, k) && t.codes == Consumed(s, k).codes
      && t.births == s.births + [Birth(s.now, FromCode(k, redirectUri, verifier))] && t.refresh == s.refresh + [row]
      && row.user == Some(s.codes[k].user) && row.client == s.codes[k].client
      && redirectUri == s.codes[k].redirectUri
      && VerifyS256(cfg.sha, verifier, s.codes[k].challenge) == Some(true)
  }

  /** Client `c` may exchange this code but for the lock of its user. */
  predicate LockedExchange(cfg: Config, s: State, c: nat, code: string, redirectUri: string, verifier: string)
    requires c < |s.clients|
  {
    var found := FindCode(s.codes, cfg.sha(code));
    && "authorization_code" in s.clients[c].grants && found.Some?
    && ExchangeGate(cfg, s, c, found.value, redirectUri, verifier) == None
    && var u := s.codes[found.value].user; u < |s.users| && Locked(s.users[u], s.now)
  }

  /** The event is a code exchange that passes every check of the exchange, by a client that has proved
      itself, while the user is locked; the lock is looked at after the code has been consumed. */
  predicate RefusedAsLocked(cfg: Config, s: State, e: Event) {
    && e.TokenRequest? && e.grant.AuthorizationCode? && e.grant.code != "" && e.grant.redirectUri != ""
    && var client := AuthenticateClient(cfg, s, e.creds);
    && client.Some? && LockedExchange(cfg, s, client.value, e.grant.code, e.grant.redirectUri, e.grant.verifier)
  }

  lemma LockedExchangeExactly(cfg: Config, s: State, c: nat, code: string, redirectUri: string, verifier: string,
                              raw: string)
    requires c < |s.clients|
    ensures LockedExchange(cfg, s, c, code, redirectUri, verifier)
       <==> GrantCode(cfg, s, c, code, redirectUri, verifier, raw).reply == Refused(AccessDenied)
  {
    hide FindCode, VerifyS256, IssuedScope, FindRefresh;
  }

  /** These are exactly the code exchanges that are answered with `access_denied`. */
  lemma RefusedAsLockedExactly(cfg: Config, s: State, creds: Creds, grant: Grant)
    requires grant.AuthorizationCode?
    ensures RefusedAsLocked(cfg, s, TokenRequest(creds, grant))
       <==> Token(cfg, s, creds, grant).reply == Refused(AccessDenied)
  {
    hide AuthenticateClient, LockedExchange, GrantCode;
    var client := AuthenticateClient(cfg, s, creds);
    if client.Some? {
      LockedExchangeExactly(cfg, s, client.value, grant.code, grant.redirectUri, grant.verifier, grant.raw);
    }
  }

  lemma ExchangeCodeEffect(cfg: Config, s: State, c: nat, code: string, redirectUri: string, verifier: string,
                           raw: string)
    returns (effect: CodeEffect)
    requires c < |s.clients|
    ensures CodeDid(cfg, s, GrantCode(cfg, s, c, code, redirectUri, verifier, raw).state, effect)
    ensures effect.Spent? <==> GrantCode(cfg, s, c, code, redirectUri, verifier, raw).reply == Refused(AccessDenied)
    ensures !effect.Registered?
  {
    var out := GrantCode(cfg, s, c, code, redirectUri, verifier, raw);
    CodeOutcome(cfg, s, c, code, redirectUri, verifier, raw);
    effect := Untouched;
    if out.reply.Tokens? {
      effect := Exchanged(FindCode(s.codes, cfg.sha(code)).value, out.state.refresh[|s.refresh|], redirectUri,
          verifier);
    } else if out.reply == Refused(AccessDenied) {
      effect := Spent(FindCode(s.codes, cfg.sha(code)).value);
    }
  }

  lemma AuthorizeCodeEffect(cfg: Config, s: State, r: AuthorizeRequest) returns (effect: CodeEffect)
    ensures CodeDid(cfg, s, Authorize(cfg, s, r).state, effect)
    ensures !effect.Spent?
    ensures effect.Registered? ==> r.cookie.Some? && CookieUser(s, r.cookie.value) == Some(effect.code.user)
  {
    hide Urls.Parse, UserScope, ErrorParams, WithState, Strip;
    effect := Untouched;
    if Authorize(cfg, s, r).state != s {
      var c := FindClient(s.clients, Strip(r.clientId)).value;
      var u := CookieUser(s, r.cookie.value).value;
      StripIsStripped(r.challenge);
      effect := Registered(NewCode(cfg, s, c, u, r));
      assert GrantedUnder(effect.code.scope, s.clients[c].scopes);
    }
  }

  lemma FederatedKeepsCodes(cfg: Config, s: State, provider: Provider, subject: string, email: string,
                            clientId: string, scope: string, raw: string, passwordHash: string)
    ensures CodeDid(cfg, s, FederatedLogin(cfg, s, provider, subject, email, clientId, scope, raw, passwordHash).state,
        Untouched)
  {
    FederatedOutcome(cfg, s, provider, subject, email, clientId, scope, raw, passwordHash);
    ResolveKeepsTokens(s, provider, subject, email, passwordHash);
  }

  lemma PasswordKeepsCodes(cfg: Config, s: State, c: nat, username: string, password: string, scope: string,
                           raw: string)
    requires c < |s.clients|
    ensures CodeDid(cfg, s, GrantPassword(cfg, s, c, username, password, scope, raw).state, Untouched)
  {
    hide PasswordCandidate, PasswordAllowed, IssuedScope, NewRow;
  }

  lemma RefreshKeepsCodes(cfg: Config, s: State, c: nat, token: string, raw: string)
    requires c < |s.clients|
    ensures CodeDid(cfg, s, GrantRefresh(cfg, s, c, token, raw).state, Untouched)
  {
  }

  lemma TokenKeepsCodes(cfg: Config, s: State, creds: Creds, grant: Grant)
    requires !grant.AuthorizationCode?
    ensures CodeDid(cfg, s, Token(cfg, s, creds, grant).state, Untouched)
  {
    var client := AuthenticateClient(cfg, s, creds);
    if client.Some? && grant.Password? {
      PasswordKeepsCodes(cfg, s, client.value, grant.username, grant.password, grant.scope, grant.raw);
    } else if client.Some? && grant.RefreshToken? {
      RefreshKeepsCodes(cfg, s, client.value, grant.token, grant.raw);
    }
  }

  lemma StepCodeEffect(cfg: Config, s: State, e: Event) returns (effect: CodeEffect)
    ensures CodeDid(cfg, s, Next(cfg, s, e), effect)
    ensures effect.Spent? <==> RefusedAsLocked(cfg, s, e)
    ensures effect.Registered? ==>
              && e.AuthorizeRequested? && e.authorize.cookie.Some?
              && CookieUser(s, e.authorize.cookie.value) == Some(effect.code.user)
  {
    hide LockedExchange, Authorize, FederatedLogin, TelegramWidget.Verdict, AuthenticateClient, KnownPrefix,
        WidgetPayload;
    effect := Untouched;
    match e {
      case TokenRequest(creds, grant) =>
        if grant.AuthorizationCode? {
          var client := AuthenticateClient(cfg, s, creds);
          RefusedAsLockedExactly(cfg, s, creds, grant);
          if client.Some? && grant.code != "" && grant.redirectUri != "" {
            effect := ExchangeCodeEffect(cfg, s, client.value, grant.code, grant.redirectUri, grant.verifier,
                grant.raw);
          }
        } else {
          TokenKeepsCodes(cfg, s, creds, grant);
        }
      case AuthorizeRequested(r) => effect := AuthorizeCodeEffect(cfg, s, r);
      case TelegramRequested(r) =>
        if Next(cfg, s, e) != s {
          FederatedKeepsCodes(cfg, s, Telegram, Decimal(r.id), SyntheticEmail(r.id), r.clientId, r.scope, r.raw,
              r.passwordHash);
        }
      case GoogleRequested(r) =>
        if Next(cfg, s, e) != s {
          FederatedKeepsCodes(cfg, s, Google, r.idToken.value.0, Normal(cfg.lower, r.idToken.value.1),
                              r.clientId, r.scope, r.raw, r.passwordHash);
        }
      case _ =>
    }
  }

  // ---------------------------------------------------------------- the invariant

  /** Refresh row `j`, when it came from a code, belongs to that code: same client and user, minted at
      the instant the code was consumed and no later than its expiry, for a request that repeated its
      redirect URI and knew a matching verifier. */
  predicate RootOk(cfg: Config, s: State, j: nat)
    requires j < |s.births| && |s.births| == |s.refresh|
  {
    match s.births[j].origin
    case FromCode(k, redirectUri, verifier) =>
      && k < |s.codes|
      && var code := s.codes[k];
      && code.consumedAt == Some(s.births[j].at) && s.births[j].at <= code.expiresAt
      && s.refresh[j].user == Some(code.user) && s.refresh[j].client == code.client
      && redirectUri == code.redirectUri && VerifyS256(cfg.sha, verifier, code.challenge) == Some(true)
    case _ => true
  }

  predicate FromSameCode(a: Birth, b: Birth) {
    a.origin.FromCode? && b.origin.FromCode? && a.origin.code == b.origin.code
  }

  predicate CodesBound(cfg: Config, s: State) {
    && |s.births| == |s.refresh|
    && (forall j | 0 <= j < |s.births| :: RootOk(cfg, s, j))
    && (forall i, j | 0 <= i < j < |s.births| :: !FromSameCode(s.births[i], s.births[j]))
    && (forall k, l | 0 <= k < l < |s.codes| :: s.codes[k].hash != s.codes[l].hash)
  }

  lemma CodesBoundEffect(cfg: Config, s: State, t: State, effect: CodeEffect)
    requires CodesBound(cfg, s) && CodeDid(cfg, s, t, effect)
    requires TableEvolves(s, t) && |t.births| == |t.refresh|
    ensures CodesBound(cfg, t)
  {
    forall j | 0 <= j < |t.births| ensures RootOk(cfg, t, j) {
      if j < |s.births| {
        assert RootOk(cfg, s, j) && RowEvolves(s.refresh[j], t.refresh[j]);
        assert t.births[j] == t.births[..|s.births|][j];
      }
    }
    forall i, j | 0 <= i < j < |t.births| ensures !FromSameCode(t.births[i], t.births[j]) {
      if i < |s.births| {
        assert t.births[i] == t.births[..|s.births|][i];
        if j < |s.births| {
          assert t.births[j] == t.births[..|s.births|][j];
        } else {
          assert RootOk(cfg, s, i);
        }
      }
    }
  }

  lemma CodesBoundStep(cfg: Config, s: State, e: Event)
    requires Forest(cfg, s) && CodesBound(cfg, s)
    ensures CodesBound(cfg, Next(cfg, s, e))
  {
    var effect := StepCodeEffect(cfg, s, e);
    StepEvolves(cfg, s, e);
    ForestStep(cfg, s, e);
    CodesBoundEffect(cfg, s, Next(cfg, s, e), effect);
  }

  lemma {:induction false} CodesBoundRun(cfg: Config, s: State, es: seq<Event>)
    requires Forest(cfg, s) && CodesBound(cfg, s)
    ensures CodesBound(cfg, Run(cfg, s, es))
    decreases |es|
  {
    if es != [] {
      CodesBoundStep(cfg, s, es[0]);
      ForestStep(cfg, s, es[0]);
      CodesBoundRun(cfg, Next(cfg, s, es[0]), es[1..]);
    }
  }

  /** In every reachable state each code is the origin of at most one chain of refresh tokens, and
      that chain is bound to it. */
  lemma ReachableCodesBound(cfg: Config, es: seq<Event>)
    ensures CodesBound(cfg, Run(cfg, EMPTY, es))
  {
    CodesBoundRun(cfg, EMPTY, es);
  }

  // ---------------------------------------------------------------- codes over runs

  /** A code row is constant but for `consumed_at`, which is written at most once. */
  predicate CodeEvolves(a: Code, b: Code) {
    b == a.(consumedAt := b.consumedAt) && (a.consumedAt.Some? ==> b.consumedAt == a.consumedAt)
  }

  predicate CodeTableEvolves(s: State, t: State) {
    |s.codes| <= |t.codes| && forall k | 0 <= k < |s.codes| :: CodeEvolves(s.codes[k], t.codes[k])
  }

  lemma CodesEvolveEffect(cfg: Config, s: State, t: State, effect: CodeEffect)
    requires CodeDid(cfg, s, t, effect)
    ensures CodeTableEvolves(s, t)
  {
  }

  lemma CodesEvolveStep(cfg: Config, s: State, e: Event)
    ensures CodeTableEvolves(s, Next(cfg, s, e))
  {
    var effect := StepCodeEffect(cfg, s, e);
    CodesEvolveEffect(cfg, s, Next(cfg, s, e), effect);
  }

  lemma CodeTableTransitive(s: State, m: State, t: State)
    requires CodeTableEvolves(s, m) && CodeTableEvolves(m, t)
    ensures CodeTableEvolves(s, t)
  {
    forall k | 0 <= k < |s.codes| ensures CodeEvolves(s.codes[k], t.codes[k]) {
      assert CodeEvolves(s.codes[k], m.codes[k]) && CodeEvolves(m.codes[k], t.codes[k]);
    }
  }

  lemma {:induction false} CodesEvolve(cfg: Config, s: State, es: seq<Event>)
    ensures CodeTableEvolves(s, Run(cfg, s, es))
    decreases |es|
  {
    if es != [] {
      var m := Next(cfg, s, es[0]);
      CodesEvolveStep(cfg, s, es[0]);
      CodesEvolve(cfg, m, es[1..]);
      CodeTableTransitive(s, m, Run(cfg, m, es[1..]));
    }
  }

  /** From `s` to `t` no row was born from code `k`, and `k` cannot be spent at `t`. */
  predicate NothingFrom(s: State, t: State, k: nat) {
    && |s.births| <= |t.births| && k < |t.codes| && !Spendable(t, k)
    && forall j | |s.births| <= j < |t.births| && t.births[j].origin.FromCode? :: t.births[j].origin.code != k
  }

  lemma SpentEffect(cfg: Config, s: State, t: State, effect: CodeEffect, k: nat)
    requires CodeDid(cfg, s, t, effect) && s.now <= t.now
    requires k < |s.codes| && !Spendable(s, k)
    ensures NothingFrom(s, t, k)
  {
  }

  lemma SpentStep(cfg: Config, s: State, e: Event, k: nat)
    requires Forest(cfg, s) && k < |s.codes| && !Spendable(s, k)
    ensures NothingFrom(s, Next(cfg, s, e), k)
  {
    var effect := StepCodeEffect(cfg, s, e);
    StepEvolves(cfg, s, e);
    SpentEffect(cfg, s, Next(cfg, s, e), effect, k);
  }

  /** A code that is consumed or past its expiry never yields another token, in any continuation. */
  lemma {:induction false} SpentCodeStaysSpent(cfg: Config, s: State, es: seq<Event>, k: nat)
    requires Forest(cfg, s) && k < |s.codes| && !Spendable(s, k)
    ensures NothingFrom(s, Run(cfg, s, es), k)
    decreases |es|
  {
    if es != [] {
      var m := Next(cfg, s, es[0]);
      SpentStep(cfg, s, es[0], k);
      ForestStep(cfg, s, es[0]);
      SpentCodeStaysSpent(cfg, m, es[1..], k);
      RunEvolves(cfg, m, es[1..]);
      var t := Run(cfg, m, es[1..]);
      forall j | |s.births| <= j < |t.births| && t.births[j].origin.FromCode? ensures t.births[j].origin.code != k {
        if j < |m.births| {
          assert t.births[j] == t.births[..|m.births|][j] == m.births[j];
        }
      }
    }
  }
}
