/** For which users tokens are minted, and that deactivating a user takes effect at once. */
module Eligibility {
  import opened Text
  import opened Scopes
  import opened Store
  import opened Steps
  import opened Machine
  import opened Effects
  import Lockout
  import TelegramWidget

  /** The event mints an access token for user `u`. */
  predicate MintsFor(cfg: Config, s: State, e: Event, u: nat) {
    var reply := Step(cfg, s, e).reply;
    reply.Tokens? && reply.access.Access? && reply.access.sub == UserSubject(u)
  }

  predicate Rotation(e: Event) { e.TokenRequest? && e.grant.RefreshToken? }

  predicate Federated(e: Event) { e.TelegramRequested? || e.GoogleRequested? }

  /** The user may have tokens by this event: active; not locked unless a refresh token is rotated; and
      a customer if the login is federated. A federated login may also be the first of a new user. */
  predicate Eligible(s: State, e: Event, u: nat) {
    if u < |s.users| then
      && s.users[u].active
      && (!Rotation(e) ==> !Locked(s.users[u], s.now))
      && (Federated(e) ==> s.users[u].kind == Customer)
    else Federated(e)
  }

  lemma FederatedEligible(cfg: Config, s: State, e: Event, provider: Provider, subject: string, email: string,
                          clientId: string, scope: string, raw: string, passwordHash: string, u: nat)
    requires Federated(e)
    ensures var reply := FederatedLogin(cfg, s, provider, subject, email, clientId, scope, raw, passwordHash).reply;
            reply.Tokens? && reply.access.Access? && reply.access.sub == UserSubject(u) ==> Eligible(s, e, u)
  {
    hide AuthenticateClient, IssuedScope;
    FederatedOutcome(cfg, s, provider, subject, email, clientId, scope, raw, passwordHash);
  }

  lemma PasswordEligible(cfg: Config, s: State, c: nat, username: string, password: string, scope: string, raw: string,
                         u: nat)
    requires c < |s.clients|
    ensures var reply := GrantPassword(cfg, s, c, username, password, scope, raw).reply;
            reply.Tokens? && reply.access.Access? && reply.access.sub == UserSubject(u) ==>
              u < |s.users| && s.users[u].active && !Locked(s.users[u], s.now)
  {
    hide UserScope, FindUser, FindRefresh;
  }

  lemma RefreshEligible(cfg: Config, s: State, c: nat, token: string, raw: string, u: nat)
    requires c < |s.clients|
    ensures var reply := GrantRefresh(cfg, s, c, token, raw).reply;
            reply.Tokens? && reply.access.Access? && reply.access.sub == UserSubject(u) ==>
              u < |s.users| && s.users[u].active
  {
    hide UserScope, FindRefresh;
  }

  lemma CodeEligible(cfg: Config, s: State, c: nat, code: string, redirectUri: string, verifier: string, raw: string,
                     u: nat)
    requires c < |s.clients|
    ensures var reply := GrantCode(cfg, s, c, code, redirectUri, verifier, raw).reply;
            reply.Tokens? && reply.access.Access? && reply.access.sub == UserSubject(u) ==>
              u < |s.users| && s.users[u].active && !Locked(s.users[u], s.now)
  {
    hide UserScope, FindRefresh, FindCode;
    CodeOutcome(cfg, s, c, code, redirectUri, verifier, raw);
  }

  lemma TokenEligible(cfg: Config, s: State, creds: Creds, grant: Grant, u: nat)
    ensures var reply := Token(cfg, s, creds, grant).reply;
            reply.Tokens? && reply.access.Access? && reply.access.sub == UserSubject(u) ==>
              Eligible(s, TokenRequest(creds, grant), u) && u < |s.users|
  {
    hide AuthenticateClient, GrantPassword, GrantRefresh, GrantCode, ClientScope;
    var client := AuthenticateClient(cfg, s, creds);
    if client.Some? {
      match grant {
        case Password(username, password, scope, raw) => PasswordEligible(cfg, s, client.value, username, password,
            scope, raw, u);
        case RefreshToken(token, raw) => RefreshEligible(cfg, s, client.value, token, raw, u);
        case AuthorizationCode(code, uri, verifier, raw) => CodeEligible(cfg, s, client.value, code, uri, verifier,
            raw, u);
        case ClientCredentials(_) =>
      }
    }
  }

  /** Tokens are minted for eligible users only, whatever the request. */
  lemma MintsOnlyForEligible(cfg: Config, s: State, e: Event, u: nat)
    ensures MintsFor(cfg, s, e, u) ==> Eligible(s, e, u)
  {
    hide Token, Authorize, FederatedLogin, TelegramWidget.Verdict, Bootstrap, KnownPrefix, WidgetPayload;
    match e {
      case AuthorizeRequested(r) => AuthorizeOnlyAddsCodes(cfg, s, r);
      case TokenRequest(creds, grant) => TokenEligible(cfg, s, creds, grant, u);
      case TelegramRequested(r) =>
        FederatedEligible(cfg, s, e, Telegram, Decimal(r.id), SyntheticEmail(r.id), r.clientId, r.scope, r.raw,
            r.passwordHash, u);
      case GoogleRequested(r) =>
        if r.idToken.Some? {
          FederatedEligible(cfg, s, e, Google, r.idToken.value.0, Normal(cfg.lower, r.idToken.value.1),
                            r.clientId, r.scope, r.raw, r.passwordHash, u);
        }
      case _ =>
    }
  }

  // ---------------------------------------------------------------- what changes an account

  predicate SameAccount(a: User, b: User) {
    b.active == a.active && b.kind == a.kind && b.passwordHash == a.passwordHash
  }

  /** Only admin edits of this user change the account columns, to what the edit says; an edit that is
      refused changes nothing. */
  predicate AccountDid(e: Event, a: User, b: User, u: nat) {
    if e == UserDeleted(u) then b == a.(active := false)
    else if e.UserPatched? && e.user == u then
      || b == a
      || (var p := e.userPatch;
          && b.active == GetOr(p.active, a.active) && b.kind == GetOr(p.kind, a.kind)
          && b.passwordHash == GetOr(p.passwordHash, a.passwordHash)
          && b == a.(email := b.email, active := b.active, kind := b.kind, passwordHash := b.passwordHash))
    else SameAccount(a, b)
  }

  lemma PasswordAccounts(cfg: Config, s: State, c: nat, username: string, password: string, scope: string,
                         raw: string, u: nat)
    requires u < |s.users| && c < |s.clients|
    ensures var t := GrantPassword(cfg, s, c, username, password, scope, raw).state;
            u < |t.users| && SameAccount(s.users[u], t.users[u])
  {
    hide UserScope, FindRefresh;
  }

  lemma RefreshAccounts(cfg: Config, s: State, c: nat, token: string, raw: string, u: nat)
    requires u < |s.users| && c < |s.clients|
    ensures var t := GrantRefresh(cfg, s, c, token, raw).state;
            u < |t.users| && SameAccount(s.users[u], t.users[u])
  {
    hide UserScope, FindRefresh;
  }

  lemma CodeAccounts(cfg: Config, s: State, c: nat, code: string, redirectUri: string, verifier: string,
                     raw: string, u: nat)
    requires u < |s.users| && c < |s.clients|
    ensures var t := GrantCode(cfg, s, c, code, redirectUri, verifier, raw).state;
            u < |t.users| && SameAccount(s.users[u], t.users[u])
  {
    hide UserScope, FindRefresh, FindCode;
    CodeOutcome(cfg, s, c, code, redirectUri, verifier, raw);
  }

  lemma TokenAccounts(cfg: Config, s: State, creds: Creds, grant: Grant, u: nat)
    requires u < |s.users|
    ensures var t := Token(cfg, s, creds, grant).state;
            u < |t.users| && SameAccount(s.users[u], t.users[u])
  {
    hide AuthenticateClient, GrantPassword, GrantRefresh, GrantCode, ClientScope, SameAccount;
    SameSelf(s.users[u]);
    var client := AuthenticateClient(cfg, s, creds);
    if client.Some? {
      match grant {
        case ClientCredentials(_) =>
        case Password(username, password, scope, raw) =>
          PasswordAccounts(cfg, s, client.value, username, password, scope, raw, u);
        case RefreshToken(token, raw) => RefreshAccounts(cfg, s, client.value, token, raw, u);
        case AuthorizationCode(code, redirectUri, verifier, raw) =>
          CodeAccounts(cfg, s, client.value, code, redirectUri, verifier, raw, u);
      }
    }
  }

  lemma SameSelf(a: User)
    ensures SameAccount(a, a)
  {
  }

  lemma FederatedAccounts(cfg: Config, s: State, e: Event, provider: Provider, subject: string, email: string,
                          clientId: string, scope: string, raw: string, passwordHash: string, u: nat)
    requires u < |s.users| && Federated(e)
    ensures var t := FederatedLogin(cfg, s, provider, subject, email, clientId, scope, raw, passwordHash).state;
            u < |t.users| && AccountDid(e, s.users[u], t.users[u], u)
  {
    hide AuthenticateClient, IssuedScope;
    FederatedOutcome(cfg, s, provider, subject, email, clientId, scope, raw, passwordHash);
  }

  lemma StepAccounts(cfg: Config, s: State, e: Event, u: nat)
    requires u < |s.users|
    ensures var t := Next(cfg, s, e);
            u < |t.users| && AccountDid(e, s.users[u], t.users[u], u)
  {
    hide Token, Authorize, FederatedLogin, TelegramWidget.Verdict, Bootstrap, KnownPrefix, WidgetPayload, Normal;
    match e {
      case Restarted => Lockout.BootstrapLock(cfg, s, u);
      case AuthorizeRequested(r) => AuthorizeOnlyAddsCodes(cfg, s, r);
      case TokenRequest(creds, grant) => TokenAccounts(cfg, s, creds, grant, u);
      case TelegramRequested(r) =>
        FederatedAccounts(cfg, s, e, Telegram, Decimal(r.id), SyntheticEmail(r.id), r.clientId, r.scope, r.raw,
            r.passwordHash, u);
      case GoogleRequested(r) =>
        if r.idToken.Some? {
          FederatedAccounts(cfg, s, e, Google, r.idToken.value.0, Normal(cfg.lower, r.idToken.value.1),
                            r.clientId, r.scope, r.raw, r.passwordHash, u);
        }
      case _ =>
    }
  }

  // ---------------------------------------------------------------- deactivation

  predicate Reactivates(e: Event, u: nat) { e.UserPatched? && e.user == u && e.userPatch.active == Some(true) }

  /** No event of the run mints an access token for user `u`. */
  predicate MintsNothing(cfg: Config, s: State, es: seq<Event>, u: nat)
    decreases |es|
  {
    es == [] || (!MintsFor(cfg, s, es[0], u) && MintsNothing(cfg, Next(cfg, s, es[0]), es[1..], u))
  }

  /** Deactivation is complete: until an admin reactivates the user, no password, federated login, code
      or refresh token, however old, yields another access token for that user. */
  lemma {:induction false} DeactivatedMintsNothing(cfg: Config, s: State, es: seq<Event>, u: nat)
    requires u < |s.users| && !s.users[u].active
    requires forall i | 0 <= i < |es| :: !Reactivates(es[i], u)
    ensures MintsNothing(cfg, s, es, u)
    ensures var t := Run(cfg, s, es); u < |t.users| && !t.users[u].active
    decreases |es|
  {
    hide Step, MintsFor;
    if es != [] {
      assert !Reactivates(es[0], u);
      StepAccounts(cfg, s, es[0], u);
      MintsOnlyForEligible(cfg, s, es[0], u);
      DeactivatedMintsNothing(cfg, Next(cfg, s, es[0]), es[1..], u);
    }
  }
}
