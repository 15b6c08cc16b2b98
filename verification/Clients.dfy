/** Clients over whole runs: identifiers stay distinct, and what a token reply says about the client
    that got it. */
module Clients {
  import opened Text
  import opened Store
  import opened Steps
  import opened Machine
  import opened Effects
  import TelegramWidget

  predicate DistinctIds(clients: seq<Client>) {
    forall i, j | 0 <= i < j < |clients| :: clients[i].clientId != clients[j].clientId
  }

  /** With distinct identifiers a lookup finds a row exactly if it is the row of that identifier. */
  lemma FoundExactly(clients: seq<Client>, id: string, c: nat)
    requires DistinctIds(clients)
    ensures FindClient(clients, id) == Some(c) <==> c < |clients| && clients[c].clientId == id
  {
  }

  lemma BootstrapIds(cfg: Config, s: State)
    requires DistinctIds(s.clients)
    ensures DistinctIds(Bootstrap(cfg, s).clients)
  {
    hide Normal, Merged, MarketUris;
    var a := s.(roleNames := s.roleNames + {"admin", "user"});
    var b := EnsureBootClient(cfg, a);
    assert DistinctIds(b.clients);
    assert DistinctIds(EnsureMarketClient(cfg, b).clients);
  }

  lemma TokenKeepsClients(cfg: Config, s: State, creds: Creds, grant: Grant)
    ensures Token(cfg, s, creds, grant).state.clients == s.clients
  {
    hide AuthenticateClient;
    var client := AuthenticateClient(cfg, s, creds);
    if grant.AuthorizationCode? && client.Some? && grant.code != "" && grant.redirectUri != "" {
      CodeOutcome(cfg, s, client.value, grant.code, grant.redirectUri, grant.verifier, grant.raw);
    }
  }

  lemma FederatedKeepsClients(cfg: Config, s: State, provider: Provider, subject: string, email: string,
                              clientId: string, scope: string, raw: string, passwordHash: string)
    ensures FederatedLogin(cfg, s, provider, subject, email, clientId, scope, raw, passwordHash).state.clients ==
        s.clients
  {
    FederatedOutcome(cfg, s, provider, subject, email, clientId, scope, raw, passwordHash);
  }

  lemma StepIds(cfg: Config, s: State, e: Event)
    requires DistinctIds(s.clients)
    ensures DistinctIds(Next(cfg, s, e).clients)
  {
    hide Token, FederatedLogin, TelegramWidget.Verdict, Bootstrap, Authorize, KnownPrefix, WidgetPayload;
    match e {
      case TokenRequest(creds, grant) => TokenKeepsClients(cfg, s, creds, grant);
      case TelegramRequested(r) =>
        FederatedKeepsClients(cfg, s, Telegram, Decimal(r.id), SyntheticEmail(r.id), r.clientId, r.scope, r.raw,
            r.passwordHash);
      case GoogleRequested(r) =>
        if r.idToken.Some? {
          FederatedKeepsClients(cfg, s, Google, r.idToken.value.0, Normal(cfg.lower, r.idToken.value.1),
                                r.clientId, r.scope, r.raw, r.passwordHash);
        }
      case AuthorizeRequested(r) => AuthorizeOnlyAddsCodes(cfg, s, r);
      case Restarted => BootstrapIds(cfg, s);
      case _ =>
    }
  }

  /** Client identifiers are pairwise distinct in every reachable state, through creation, edits and any
      number of bootstraps, so that at most one row ever answers to an identifier. */
  lemma {:induction false} DistinctIdsRun(cfg: Config, s: State, es: seq<Event>)
    requires DistinctIds(s.clients)
    ensures DistinctIds(Run(cfg, s, es).clients)
    decreases |es|
  {
    hide Step;
    if es != [] {
      StepIds(cfg, s, es[0]);
      DistinctIdsRun(cfg, Next(cfg, s, es[0]), es[1..]);
    }
  }

  predicate IdsKept(clients: seq<Client>, others: seq<Client>) {
    |clients| <= |others| && forall c | 0 <= c < |clients| :: others[c].clientId == clients[c].clientId
  }

  /** A client row keeps its identifier, in every run. */
  lemma {:induction false} IdsKeptRun(cfg: Config, s: State, es: seq<Event>)
    ensures IdsKept(s.clients, Run(cfg, s, es).clients)
    decreases |es|
  {
    hide Step;
    if es != [] {
      var effect := StepEffect(cfg, s, es[0]);
      IdsKeptRun(cfg, Next(cfg, s, es[0]), es[1..]);
    }
  }

  // ---------------------------------------------------------------- who gets tokens

  /** The credentials, those of the form before those of HTTP Basic, prove this client: a public one must not
      send a secret, a confidential one must send the secret of its hash. */
  predicate Proves(cfg: Config, client: Client, creds: Creds) {
    var id := if creds.id != "" then creds.id else creds.basicId;
    var secret := if creds.secret != "" then creds.secret else creds.basicSecret;
    && id != "" && client.clientId == id
    && if client.isPublic then secret == ""
       else secret != "" && client.secretHash != "" && cfg.verify(secret, client.secretHash)
  }

  lemma AuthenticatedExactly(cfg: Config, s: State, creds: Creds, c: nat)
    requires DistinctIds(s.clients)
    ensures AuthenticateClient(cfg, s, creds) == Some(c) <==> c < |s.clients| && Proves(cfg, s.clients[c], creds)
  {
    FoundExactly(s.clients, Or(creds.id, creds.basicId), c);
    var found := FindClient(s.clients, Or(creds.id, creds.basicId));
    if found.Some? {
      FoundExactly(s.clients, Or(creds.id, creds.basicId), found.value);
    }
  }

  function GrantName(grant: Grant): string {
    match grant
    case ClientCredentials(_) => "client_credentials"
    case Password(_, _, _, _) => "password"
    case RefreshToken(_, _) => "refresh_token"
    case AuthorizationCode(_, _, _, _) => "authorization_code"
  }

  /** The token endpoint answers with tokens only to a client that has proved itself and may use the
      grant, and the access token names that client. Passwords pass only through confidential clients
      that are allowed to take them. */
  lemma TokensOnlyToProvenClients(cfg: Config, s: State, creds: Creds, grant: Grant) returns (c: nat)
    requires DistinctIds(s.clients)
    ensures var reply := Token(cfg, s, creds, grant).reply;
            reply.Tokens? ==>
              && c < |s.clients| && Proves(cfg, s.clients[c], creds) && GrantName(grant) in s.clients[c].grants
              && reply.access.Access? && reply.access.clientId == s.clients[c].clientId
              && (grant.Password? ==> cfg.passwordEnabled && s.clients[c].allowPassword && !s.clients[c].isPublic)
  {
    c := 0;
    if !Token(cfg, s, creds, grant).reply.Tokens? {
      return;
    }
    c := AuthenticateClient(cfg, s, creds).value;
    AuthenticatedExactly(cfg, s, creds, c);
    hide AuthenticateClient, Proves;
    if grant.AuthorizationCode? {
      CodeOutcome(cfg, s, c, grant.code, grant.redirectUri, grant.verifier, grant.raw);
    }
  }
}
