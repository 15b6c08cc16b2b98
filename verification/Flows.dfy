/** Whole conversations with the server: what an honest client that follows the protocol gets, and what
    a second use of the same secret gets. */
module Flows {
  import opened Text
  import opened Scopes
  import opened Base64
  import opened Pkce
  import opened Store
  import opened Steps
  import opened Machine
  import opened Redirects
  import opened Effects
  import opened Chains
  import opened Codes
  import opened Clients
  import opened Invariants
  import Introspection

  function PublicCreds(clientId: string): Creds { Creds(clientId, "", "", "") }

  /** The challenge of the request stems from verifier `v`, perhaps padded and surrounded by whitespace. */
  predicate Challenges(cfg: Config, r: AuthorizeRequest, v: string, pre: string, pad: string, post: string) {
    && Verifier(v) && AllSpace(pre) && AllPad(pad) && AllSpace(post)
    && r.challenge == pre + Challenge(cfg.sha, v) + pad + post
  }

  /** Exactly the lists under which granting again to the same user changes nothing. */
  predicate SettledList(allowed: seq<string>) { DefaultTokens(allowed) || NothingReread(allowed) }

  /** The scope of a code is granted again unchanged as long as roles and allowed scopes stand. */
  lemma SameScopeAgain(asked: string, allowed: seq<string>, roles: set<string>)
    requires SettledList(allowed)
    ensures var scope := UserScope(asked, allowed, roles); UserScope(scope, allowed, roles) == scope
  {
    RegrantedExactly(allowed);
  }

  /** The exchange of the newest code within its lifetime passes every gate. */
  lemma FreshCodePasses(cfg: Config, s: State, r: AuthorizeRequest, v: string, pre: string, pad: string, post: string,
                        code: Code, wait: nat)
    requires CodeFor(cfg, s, r, code) && Challenges(cfg, r, v, pre, pad, post) && wait <= cfg.codeLife
    ensures var t := s.(codes := s.codes + [code], now := s.now + wait);
            && FindCode(t.codes, code.hash) == Some(|s.codes|)
            && ExchangeGate(cfg, t, code.client, |s.codes|, r.redirectUri, v) == None
            && IssueGate(t.users[code.user], t.now) == None
  {
    hide VerifyS256, Strip, UserScope, CookieUser, IsS256, Challenge;
    OwnChallengeMatches(cfg.sha, v, pre, pad, post);
  }

  /** The tokens that come out of a code exchange: for the user of the login cookie, with the scope of the code. */
  predicate Granted(out: Outcome, u: nat, clientId: string, scope: string, raw: string) {
    && out.reply.Tokens? && out.reply.refresh == Some(raw) && out.reply.scope == scope
    && out.reply.access.Access? && out.reply.access.sub == UserSubject(u)
    && out.reply.access.scope == scope && out.reply.access.clientId == clientId
  }

  /** The authorization endpoint answers with a code. */
  predicate HandsOutCode(cfg: Config, s: State, r: AuthorizeRequest) {
    var reply := Authorize(cfg, s, r).reply;
    reply.Redirect? && "code" in reply.params
  }

  /** The state after a code was handed out and some time has passed. */
  function Waited(cfg: Config, s: State, r: AuthorizeRequest, wait: nat): State {
    Run(cfg, s, [AuthorizeRequested(r), Tick(wait)])
  }

  lemma WaitedState(cfg: Config, s: State, r: AuthorizeRequest, wait: nat)
    ensures var m := Authorize(cfg, s, r).state; Waited(cfg, s, r, wait) == m.(now := m.now + wait)
  {
    hide Authorize, Steps.Token, TelegramLogin, GoogleLogin, Bootstrap;
    var es := [AuthorizeRequested(r), Tick(wait)];
    var m := Next(cfg, s, es[0]);
    assert es[1..] == [Tick(wait)] && [Tick(wait)][1..] == [];
    assert m == Authorize(cfg, s, r).state;
    assert Next(cfg, m, Tick(wait)) == m.(now := m.now + wait);
    assert Run(cfg, m, [Tick(wait)]) == Run(cfg, Next(cfg, m, Tick(wait)), []);
  }

  lemma CodeWaits(cfg: Config, s: State, r: AuthorizeRequest, wait: nat) returns (code: Code)
    requires HandsOutCode(cfg, s, r)
    ensures CodeFor(cfg, s, r, code)
    ensures Waited(cfg, s, r, wait) == s.(codes := s.codes + [code], now := s.now + wait)
  {
    hide Waited, Authorize, CodeFor;
    AuthorizeLocation(cfg, s, r);
    WaitedState(cfg, s, r, wait);
    code := Authorize(cfg, s, r).state.codes[|s.codes|];
  }

  /** Presenting the newest code of `t` with verifier `v` grants tokens with the scope of the code, and
      presenting it again is refused and changes nothing. */
  predicate RedeemedOnce(cfg: Config, s: State, t: State, r: AuthorizeRequest, v: string, raw: string, again: string) {
    && |t.codes| == |s.codes| + 1 && CodeFor(cfg, s, r, t.codes[|s.codes|])
    && var code, creds := t.codes[|s.codes|], PublicCreds(Strip(r.clientId));
    && var out := Token(cfg, t, creds, AuthorizationCode(r.raw, r.redirectUri, v, raw));
    && (SettledList(s.clients[code.client].scopes) ==> Granted(out, code.user, s.clients[code.client].clientId,
        code.scope, raw))
    && out.reply.Tokens?
    && Token(cfg, out.state, creds, AuthorizationCode(r.raw, r.redirectUri, v, again)) ==
        Outcome(out.state, Refused(InvalidGrant))
  }

  lemma PublicClientProves(cfg: Config, s: State, clientId: string, c: nat)
    requires clientId != "" && FindClient(s.clients, clientId) == Some(c) && c < |s.clients| && s.clients[c].isPublic
    ensures AuthenticateClient(cfg, s, PublicCreds(clientId)) == Some(c)
  {
  }

  lemma TokenIsExchange(cfg: Config, t: State, clientId: string, c: nat, code: string, redirectUri: string, v: string,
                        raw: string)
    requires clientId != "" && FindClient(t.clients, clientId) == Some(c) && c < |t.clients| && t.clients[c].isPublic
    requires code != "" && redirectUri != ""
    ensures Token(cfg, t, PublicCreds(clientId), AuthorizationCode(code, redirectUri, v, raw))
         == GrantCode(cfg, t, c, code, redirectUri, v, raw)
  {
    PublicClientProves(cfg, t, clientId, c);
    hide AuthenticateClient, GrantCode;
  }

  lemma WaitedCodeRedeems(cfg: Config, s: State, r: AuthorizeRequest, v: string, pre: string, pad: string, post: string,
                          code: Code, wait: nat, raw: string, again: string)
    requires Strip(r.clientId) != "" && r.raw != "" && r.redirectUri != ""
    requires Challenges(cfg, r, v, pre, pad, post) && wait <= cfg.codeLife
    requires CodeFor(cfg, s, r, code) && FindRefresh(s.refresh, cfg.sha(raw)).None?
    ensures RedeemedOnce(cfg, s, s.(codes := s.codes + [code], now := s.now + wait), r, v, raw, again)
  {
    var t, c, k := s.(codes := s.codes + [code], now := s.now + wait), code.client, |s.codes|;
    FreshCodePasses(cfg, s, r, v, pre, pad, post, code, wait);
    var allowed, roles := s.clients[c].scopes, s.users[code.user].roles;
    if SettledList(allowed) {
      SameScopeAgain(r.scope, allowed, roles);
    }
    hide Strip, Challenges, ExchangeGate, GrantCode, UserScope, Steps.Token, SettledList, FindRefresh, IssueGate;
    ExchangedOnce(cfg, t, c, k, r.raw, r.redirectUri, v, raw, again);
    TokenIsExchange(cfg, t, Strip(r.clientId), c, r.raw, r.redirectUri, v, raw);
    TokenIsExchange(cfg, GrantCode(cfg, t, c, r.raw, r.redirectUri, v, raw).state, Strip(r.clientId), c, r.raw,
        r.redirectUri, v, again);
  }

  /** The authorization code flow with PKCE, end to end: a code that the authorization endpoint has put
      into its redirect can be exchanged, by the client and with the verifier it was requested for,
      at any time in its life; and exactly once. */
  lemma CodeFlow(cfg: Config, s: State, r: AuthorizeRequest, v: string, pre: string, pad: string, post: string,
                 wait: nat, raw: string, again: string)
    requires Strip(r.clientId) != "" && r.raw != "" && r.redirectUri != ""
    requires Challenges(cfg, r, v, pre, pad, post) && wait <= cfg.codeLife
    requires FindRefresh(s.refresh, cfg.sha(raw)).None?
    ensures HandsOutCode(cfg, s, r) ==> RedeemedOnce(cfg, s, Waited(cfg, s, r, wait), r, v, raw, again)
  {
    hide HandsOutCode, Challenges, RedeemedOnce, Waited, Strip;
    if HandsOutCode(cfg, s, r) {
      var code := CodeWaits(cfg, s, r, wait);
      WaitedCodeRedeems(cfg, s, r, v, pre, pad, post, code, wait, raw, again);
    }
  }

  /** An exchange that passes the gates yields tokens for the user and scope of the code, and leaves
      behind a code that is refused. */
  lemma ExchangedOnce(cfg: Config, t: State, c: nat, k: nat, code: string, redirectUri: string, v: string, raw: string,
                      again: string)
    requires c < |t.clients| && "authorization_code" in t.clients[c].grants && k < |t.codes|
    requires FindCode(t.codes, cfg.sha(code)) == Some(k) && ExchangeGate(cfg, t, c, k, redirectUri, v) == None
    requires t.codes[k].user < |t.users| && IssueGate(t.users[t.codes[k].user], t.now) == None
    requires FindRefresh(t.refresh, cfg.sha(raw)).None?
    ensures var out, u := GrantCode(cfg, t, c, code, redirectUri, v, raw), t.codes[k].user;
            && Granted(out, u, t.clients[c].clientId, UserScope(t.codes[k].scope, t.clients[c].scopes,
                t.users[u].roles), raw)
            && out.state.clients == t.clients
            && GrantCode(cfg, out.state, c, code, redirectUri, v, again) == Outcome(out.state, Refused(InvalidGrant))
  {
    hide UserScope, VerifyS256;
    var used := Consumed(t, k);
    SameHashes(t.codes, used.codes, cfg.sha(code));
    assert used.codes[k].consumedAt.Some?;
  }

  lemma {:induction false} SameHashes(codes: seq<Code>, others: seq<Code>, hash: Digest)
    requires |codes| == |others| && forall i | 0 <= i < |codes| :: codes[i].hash == others[i].hash
    ensures FindCode(codes, hash) == FindCode(others, hash)
    decreases |codes|
  {
    if codes != [] {
      SameHashes(codes[..|codes| - 1], others[..|codes| - 1], hash);
    }
  }

  // ---------------------------------------------------------------- with anything in between

  /** Everything that lets client `c` exchange the code `k` of the table at this moment. */
  predicate Exchangeable(cfg: Config, t: State, c: nat, k: nat, redirectUri: string, v: string, raw: string)
    requires c < |t.clients|
  {
    && Spendable(t, k) && "authorization_code" in t.clients[c].grants
    && var code := t.codes[k];
    && code.client == c && code.redirectUri == redirectUri
    && v != "" && VerifyS256(cfg.sha, v, code.challenge) == Some(true)
    && code.user < |t.users| && t.users[code.user].active && !Locked(t.users[code.user], t.now)
    && (t.clients[c].isPublic ==> t.users[code.user].kind == Customer)
    && FindRefresh(t.refresh, cfg.sha(raw)).None?
  }

  /** A code exchange succeeds if and only if the code is in the table and exchangeable. */
  lemma ExchangeExactly(cfg: Config, t: State, c: nat, code: string, redirectUri: string, v: string, raw: string)
    requires c < |t.clients|
    ensures var out, found := GrantCode(cfg, t, c, code, redirectUri, v, raw), FindCode(t.codes, cfg.sha(code));
            && (out.reply.Tokens? <==> found.Some? && Exchangeable(cfg, t, c, found.value, redirectUri, v, raw))
            && (out.reply.Tokens? ==>
                  out.reply.access.Access? && out.reply.access.sub == UserSubject(t.codes[found.value].user))
  {
    hide FindCode, VerifyS256, UserScope, FindRefresh;
  }

  /** What a code for a public client still needs at the moment of the exchange. */
  predicate StillGood(cfg: Config, t: State, k: nat, raw: string) {
    && Spendable(t, k)
    && var c, u := t.codes[k].client, t.codes[k].user;
    && c < |t.clients| && t.clients[c].isPublic && "authorization_code" in t.clients[c].grants
    && u < |t.users| && t.users[u].active && t.users[u].kind == Customer && !Locked(t.users[u], t.now)
    && FindRefresh(t.refresh, cfg.sha(raw)).None?
  }

  /** The answer to the exchange of code `k`: tokens for its user exactly if the code is still good. */
  predicate AnswersExactly(cfg: Config, t: State, k: nat, r: AuthorizeRequest, v: string, raw: string) {
    && k < |t.codes|
    && var reply := Token(cfg, t, PublicCreds(Strip(r.clientId)),
        AuthorizationCode(r.raw, r.redirectUri, v, raw)).reply;
    && (reply.Tokens? <==> StillGood(cfg, t, k, raw))
    && (reply.Tokens? ==> reply.access.Access? && reply.access.sub == UserSubject(t.codes[k].user))
  }

  lemma {:induction false} CodeAfterRun(cfg: Config, s: State, r: AuthorizeRequest, es: seq<Event>) returns (code: Code)
    requires CaseTableOk(cfg.lower) && Consistent(cfg, s) && HandsOutCode(cfg, s, r)
    ensures var t, k := Run(cfg, Next(cfg, s, AuthorizeRequested(r)), es), |s.codes|;
            && CodeFor(cfg, s, r, code) && k < |t.codes| && CodeEvolves(code, t.codes[k])
            && FindCode(t.codes, cfg.sha(r.raw)) == Some(k)
            && FindClient(t.clients, Strip(r.clientId)) == Some(code.client) && code.client < |t.clients|
  {
    var e := AuthorizeRequested(r);
    var m, k := Next(cfg, s, e), |s.codes|;
    AuthorizeLocation(cfg, s, r);
    NextAuthorize(cfg, s, r);
    code := m.codes[k];
    hide Step, Authorize, Strip, CookieUser, IsS256;
    ConsistentStep(cfg, s, e);
    ConsistentRun(cfg, m, es);
    CodesEvolve(cfg, m, es);
    var t := Run(cfg, m, es);
    IdsKeptRun(cfg, m, es);
    assert CodeEvolves(m.codes[k], t.codes[k]);
    FoundExactly(t.clients, Strip(r.clientId), code.client);
    CodePosition(t.codes, k);
  }

  lemma NextAuthorize(cfg: Config, s: State, r: AuthorizeRequest)
    ensures Next(cfg, s, AuthorizeRequested(r)) == Authorize(cfg, s, r).state
  {
    hide Authorize, Steps.Token, TelegramLogin, GoogleLogin, Bootstrap;
  }

  lemma CodePosition(codes: seq<Code>, k: nat)
    requires k < |codes| && forall i, j | 0 <= i < j < |codes| :: codes[i].hash != codes[j].hash
    ensures FindCode(codes, codes[k].hash) == Some(k)
  {
  }

  /** With a public client that is found, and the verifier of the challenge, the exchange of the code is
      answered exactly. */
  lemma GoodIsExchangeable(cfg: Config, s: State, t: State, r: AuthorizeRequest, v: string, pre: string, pad: string,
                           post: string,
                           code: Code, k: nat, raw: string)
    requires Strip(r.clientId) != "" && r.raw != "" && r.redirectUri != "" && Challenges(cfg, r, v, pre, pad, post)
    requires CodeFor(cfg, s, r, code) && k < |t.codes| && CodeEvolves(code, t.codes[k])
    requires FindCode(t.codes, cfg.sha(r.raw)) == Some(k)
    requires FindClient(t.clients, Strip(r.clientId)) == Some(code.client) && code.client < |t.clients|
    ensures AnswersExactly(cfg, t, k, r, v, raw)
  {
    hide VerifyS256, Strip, UserScope, CookieUser, IsS256, Challenge, Steps.Token, GrantCode, FindClient, FindCode,
        FindRefresh;
    OwnChallengeMatches(cfg.sha, v, pre, pad, post);
    if t.clients[code.client].isPublic {
      TokenIsExchange(cfg, t, Strip(r.clientId), code.client, r.raw, r.redirectUri, v, raw);
      ExchangeExactly(cfg, t, code.client, r.raw, r.redirectUri, v, raw);
    } else {
      ConfidentialRefused(cfg, t, Strip(r.clientId), code.client, AuthorizationCode(r.raw, r.redirectUri, v, raw));
    }
  }

  lemma ConfidentialRefused(cfg: Config, t: State, clientId: string, c: nat, grant: Grant)
    requires FindClient(t.clients, clientId) == Some(c) && c < |t.clients| && !t.clients[c].isPublic
    ensures Token(cfg, t, PublicCreds(clientId), grant).reply == Refused(InvalidClient)
  {
  }

  /** The authorization code flow with anything in between: after a code was handed out and whatever
      requests, edits, restarts and waiting followed, its client gets tokens for it, with the verifier
      it was requested for, if and only if the code is unused and in time, the client still public and
      allowed the grant, and the user still an active, unlocked customer. */
  lemma {:induction false} CodeFlowRun(cfg: Config, s: State, r: AuthorizeRequest, v: string, pre: string, pad: string,
                                       post: string,
                                       es: seq<Event>, raw: string)
    requires CaseTableOk(cfg.lower) && Consistent(cfg, s)
    requires Strip(r.clientId) != "" && r.raw != "" && r.redirectUri != "" && Challenges(cfg, r, v, pre, pad, post)
    ensures HandsOutCode(cfg, s, r) ==>
              AnswersExactly(cfg, Run(cfg, Next(cfg, s, AuthorizeRequested(r)), es), |s.codes|, r, v, raw)
  {
    hide Step, HandsOutCode, Challenges, AnswersExactly, Strip, Consistent;
    if HandsOutCode(cfg, s, r) {
      var code := CodeAfterRun(cfg, s, r, es);
      GoodIsExchangeable(cfg, s, Run(cfg, Next(cfg, s, AuthorizeRequested(r)), es), r, v, pre, pad, post, code,
          |s.codes|, raw);
    }
  }

  /** What the newest token of a rotation needs at the moment it is used. */
  predicate Rotatable(cfg: Config, t: State, c: nat, i: nat, raw: string)
    requires c < |t.clients|
  {
    && i < |t.refresh| && Live(t.refresh[i], t.now) && "refresh_token" in t.clients[c].grants
    && t.refresh[i].user.Some? && t.refresh[i].user.value < |t.users| && t.users[t.refresh[i].user.value].active
    && FindRefresh(t.refresh, cfg.sha(raw)).None?
  }

  /** Refresh token rotation with anything in between: after a rotation and whatever followed, the old
      token is refused to every client and changes nothing, and the new one is accepted from its client
      if and only if it is live, the client still allowed the grant, and the user still active. */
  lemma {:induction false} RotationFlowRun(cfg: Config, s: State, c: nat, token: string, raw: string, es: seq<Event>,
                                           d: nat, again: string)
    requires Forest(cfg, s) && c < |s.clients|
    ensures var out := GrantRefresh(cfg, s, c, token, raw);
            var t, n := Run(cfg, out.state, es), |s.refresh|;
            out.reply.Tokens? ==>
              && c < |t.clients|
              && (d < |t.clients| ==> GrantRefresh(cfg, t, d, token, again).reply.Refused?
                                      && GrantRefresh(cfg, t, d, token, again).state == t)
              && (GrantRefresh(cfg, t, c, raw, again).reply.Tokens? <==> Rotatable(cfg, t, c, n, again))
  {
    hide Step, UserScope, ScopeIntersect;
    if !GrantRefresh(cfg, s, c, token, raw).reply.Tokens? {
      return;
    }
    var m := GrantRefresh(cfg, s, c, token, raw).state;
    var effect := RefreshEffect(cfg, s, c, token, raw);
    ForestEffect(cfg, s, m, effect);
    ForestRun(cfg, m, es);
    RunEvolves(cfg, m, es);
    IdsKeptRun(cfg, m, es);
    RotatedRows(cfg, s, c, token, raw);
    var t, i, n := Run(cfg, m, es), FindRefresh(s.refresh, cfg.sha(token)).value, |s.refresh|;
    RowsFound(cfg, m, t, i);
    RowsFound(cfg, m, t, n);
    hide GrantRefresh, Forest, TableEvolves;
    assert t.refresh[i].revokedAt.Some?;
    if d < |t.clients| {
      RevokedRefused(cfg, t, d, token, again);
    }
    RotationExactly(cfg, t, c, raw, again, n);
  }

  lemma RotatedRows(cfg: Config, s: State, c: nat, token: string, raw: string)
    requires c < |s.clients| && GrantRefresh(cfg, s, c, token, raw).reply.Tokens?
    ensures var m, found := GrantRefresh(cfg, s, c, token, raw).state, FindRefresh(s.refresh, cfg.sha(token));
            && found.Some? && m.clients == s.clients && |m.refresh| == |s.refresh| + 1
            && m.refresh[found.value].revokedAt.Some? && m.refresh[found.value].hash == cfg.sha(token)
            && m.refresh[|s.refresh|].hash == cfg.sha(raw) && m.refresh[|s.refresh|].client == c
  {
    hide UserScope, ScopeIntersect;
  }

  lemma RowsFound(cfg: Config, m: State, t: State, i: nat)
    requires Forest(cfg, t) && TableEvolves(m, t) && i < |m.refresh|
    ensures RowEvolves(m.refresh[i], t.refresh[i]) && FindRefresh(t.refresh, m.refresh[i].hash) == Some(i)
    ensures t.refresh[i].user.Some? && t.refresh[i].user.value < |t.users|
  {
    assert RowEvolves(m.refresh[i], t.refresh[i]) && RowOk(cfg, t, i);
    HashPosition(t.refresh, i);
  }

  lemma RevokedRefused(cfg: Config, t: State, d: nat, token: string, again: string)
    requires d < |t.clients|
    requires var found := FindRefresh(t.refresh, cfg.sha(token)); found.Some? && t.refresh[found.value].revokedAt.Some?
    ensures var out := GrantRefresh(cfg, t, d, token, again); out.reply.Refused? && out.state == t
  {
  }

  lemma RotationExactly(cfg: Config, t: State, c: nat, raw: string, again: string, n: nat)
    requires c < |t.clients| && n < |t.refresh| && FindRefresh(t.refresh, cfg.sha(raw)) == Some(n)
    requires t.refresh[n].client == c && t.refresh[n].user.Some? && t.refresh[n].user.value < |t.users|
    ensures GrantRefresh(cfg, t, c, raw, again).reply.Tokens? <==> Rotatable(cfg, t, c, n, again)
  {
    hide UserScope, FindRefresh;
  }

  /** Refresh token rotation, end to end: after a rotation the presented token is refused, which leaves
      everything as it is, the rest of its family included; the token handed out instead is accepted
      at any time in its life. */
  lemma RotationFlow(cfg: Config, s: State, c: nat, token: string, raw: string, wait: nat, again: string)
    requires Forest(cfg, s) && c < |s.clients| && wait <= cfg.refreshLife
    ensures var out := GrantRefresh(cfg, s, c, token, raw);
            var t := out.state.(now := s.now + wait);
            out.reply.Tokens? && FindRefresh(t.refresh, cfg.sha(again)).None? ==>
              && out.state.now == s.now && t.clients == s.clients
              && GrantRefresh(cfg, t, c, token, again) == Outcome(t, Refused(InvalidGrant))
              && GrantRefresh(cfg, t, c, raw, again).reply.Tokens?
  {
    if !GrantRefresh(cfg, s, c, token, raw).reply.Tokens? {
      return;
    }
    hide UserScope, ScopeIntersect;
    var m := GrantRefresh(cfg, s, c, token, raw).state;
    var i, n := FindRefresh(s.refresh, cfg.sha(token)).value, |s.refresh|;
    var replaced := s.refresh[i].(revokedAt := Some(s.now), replacedBy := Some(n));
    assert m.refresh == s.refresh[i := replaced] + [m.refresh[n]];
    Introspection.FindAppended(s.refresh[i := replaced], m.refresh[n], cfg.sha(raw));
    assert RowOk(cfg, s, i);
    HashPosition(m.refresh, i);
  }

  lemma HashPosition(rows: seq<Refresh>, i: nat)
    requires i < |rows| && forall j | 0 <= j < |rows| && j != i :: rows[j].hash != rows[i].hash
    ensures FindRefresh(rows, rows[i].hash) == Some(i)
  {
  }
}
