/** The storefront's way in, from an identity nobody has seen before to the tokens of a code exchange. */
module Storefront {
  import opened Text
  import opened Scopes
  import opened Base64
  import opened Pkce
  import opened Store
  import opened Steps
  import opened Machine
  import opened Emails
  import opened Federation
  import opened Clients
  import opened Answers
  import opened AuthorizeAnswers
  import opened FederatedLogins
  import opened Flows
  import Urls

  /** The request asks client `c` for a code in due form, for the challenge of verifier `v`. */
  predicate AsksForCode(cfg: Config, s: State, r: AuthorizeRequest, c: nat, v: string, pre: string, pad: string,
                        post: string)
  {
    && c < |s.clients| && s.clients[c].clientId == Strip(r.clientId) != "" && s.clients[c].isPublic
    && "authorization_code" in s.clients[c].grants && r.redirectUri in s.clients[c].redirectUris
    && r.redirectUri != "" && Urls.Parse(cfg.authority, r.redirectUri).Some?
    && Strip(r.responseType) == "code" && NamesS256(r.challengeMethod) && Challenges(cfg, r, v, pre, pad, post)
    && r.raw != "" && FreshCode(cfg, s, r.raw)
  }

  lemma ChallengeNotEmpty(cfg: Config, r: AuthorizeRequest, v: string, pre: string, pad: string, post: string)
    requires Challenges(cfg, r, v, pre, pad, post)
    ensures Strip(r.challenge) != ""
  {
    TrimmedChallenge(cfg.sha, v, pre, pad, post);
    ChallengeShape(cfg.sha, v);
    assert StripPad("") == "";
    hide Strip, StripPad, Challenge;
  }

  /** The cookie of user `u`, signed at `minted`. */
  function LoginCookie(cfg: Config, minted: nat, u: nat): Claims {
    BrowserLogin(UserSubject(u), minted / 1_000_000, (minted + cfg.browserLife) / 1_000_000)
  }

  lemma CookieKeeps(cfg: Config, minted: nat, now: nat, u: nat)
    requires minted <= now && now + 1_000_000 <= minted + cfg.browserLife
    ensures GoodCookie(Some(LoginCookie(cfg, minted, u)), now)
  {
  }

  /** An active, unlocked customer with a cookie in time is handed a code by a request in due form. */
  lemma CustomerGetsCode(cfg: Config, s: State, r: AuthorizeRequest, c: nat, u: nat, minted: nat, v: string,
                         pre: string, pad: string, post: string)
    requires DistinctIds(s.clients) && AsksForCode(cfg, s, r, c, v, pre, pad, post)
    requires u < |s.users| && s.users[u].kind == Customer && s.users[u].active && !LockedNow(s.users[u], s.now)
    requires minted <= s.now && s.now + 1_000_000 <= minted + cfg.browserLife
    requires r.cookie == Some(LoginCookie(cfg, minted, u))
    ensures HandsOutCode(cfg, s, r) && CodeSent(cfg, s, r, Authorize(cfg, s, r), c, u)
  {
    hide Step, Authorize, Fault, Strip, NamesS256, Challenges, Urls.Parse, FreshCode, GoodCookie, DistinctIds,
        AuthorizeAnswer, CodeSent, HandsOutCode, LoginCookie;
    CookieKeeps(cfg, minted, s.now, u);
    ChallengeNotEmpty(cfg, r, v, pre, pad, post);
    NoFault(cfg, s, r, c, u, minted, v, pre, pad, post);
    AuthorizeOf(cfg, s, r, c);
    AuthorizeStep(cfg, s, r);
    AnswerIsCode(cfg, s, r, Authorize(cfg, s, r), c, u, minted);
    SentIsHandedOut(cfg, s, r, c, u);
  }

  lemma AuthorizeStep(cfg: Config, s: State, r: AuthorizeRequest)
    ensures Step(cfg, s, AuthorizeRequested(r)) == Authorize(cfg, s, r)
  {
    hide Authorize, Steps.Token, TelegramLogin, GoogleLogin, Bootstrap;
  }

  lemma AnswerIsCode(cfg: Config, s: State, r: AuthorizeRequest, out: Outcome, c: nat, u: nat, minted: nat)
    requires c < |s.clients| && u < |s.users| && AuthorizeAnswer(cfg, s, r, out, c) && Fault(s, c, r) == None
    requires r.redirectUri in s.clients[c].redirectUris && Urls.Parse(cfg.authority, r.redirectUri).Some?
    requires FreshCode(cfg, s, r.raw) && r.cookie == Some(LoginCookie(cfg, minted, u))
    ensures CodeSent(cfg, s, r, out, c, u)
  {
    hide Fault, Urls.Parse, FreshCode, GoodCookie, CodeSent;
  }

  lemma SentIsHandedOut(cfg: Config, s: State, r: AuthorizeRequest, c: nat, u: nat)
    requires c < |s.clients| && u < |s.users| && CodeSent(cfg, s, r, Authorize(cfg, s, r), c, u)
    ensures HandsOutCode(cfg, s, r)
  {
    hide Authorize, UserScope, Strip;
  }

  lemma NoFault(cfg: Config, s: State, r: AuthorizeRequest, c: nat, u: nat, minted: nat, v: string, pre: string,
                pad: string, post: string)
    requires AsksForCode(cfg, s, r, c, v, pre, pad, post) && Strip(r.challenge) != ""
    requires u < |s.users| && s.users[u].kind == Customer && s.users[u].active && !LockedNow(s.users[u], s.now)
    requires r.cookie == Some(LoginCookie(cfg, minted, u)) && GoodCookie(r.cookie, s.now)
    ensures Fault(s, c, r) == None
  {
    hide Strip, NamesS256, Challenges, Urls.Parse, FreshCode;
  }

  /** A newcomer's first login, and what it leaves behind. */
  predicate FirstLogin(cfg: Config, s: State, e: Event, c: nat) {
    var login := VerifiedLogin(cfg, s, e);
    && login.Some? && PublicClient(s, login.value.clientId, c) && Nobodys(s, login.value.identity)
    && Fresh(cfg, s, login.value.raw)
  }

  predicate NewCustomer(cfg: Config, s: State, out: Outcome) {
    var m, n := out.state, |s.users|;
    && out.reply.Tokens? && out.reply.access.sub == UserSubject(n)
    && out.reply.cookie == Some(LoginCookie(cfg, s.now, n))
    && |m.users| == n + 1 && m.users[n].kind == Customer && m.users[n].active && m.users[n].lockedUntil == None
    && m.clients == s.clients && m.codes == s.codes && m.now == s.now
  }

  lemma NewcomerLeaves(cfg: Config, s: State, out: Outcome, login: Login, c: nat)
    requires c < |s.clients| && NewcomerAnswer(cfg, s, out, login, c) && Fresh(cfg, s, login.raw)
    ensures NewCustomer(cfg, s, out)
  {
    hide Fresh, UserScope;
  }

  lemma FirstLoginLeaves(cfg: Config, s: State, e: Event, c: nat)
    requires DistinctIds(s.clients) && FirstLogin(cfg, s, e, c)
    ensures NewCustomer(cfg, s, Step(cfg, s, e))
  {
    hide Step, VerifiedLogin, Fresh, Nobodys, DistinctIds, NewcomerAnswer, NewCustomer;
    LoginOfNewcomer(cfg, s, e, c);
    NewcomerLeaves(cfg, s, Step(cfg, s, e), VerifiedLogin(cfg, s, e).value, c);
  }

  /** The state some time after the login. */
  function After(cfg: Config, s: State, e: Event, wait: nat): State { Run(cfg, Next(cfg, s, e), [Tick(wait)]) }

  lemma AfterState(cfg: Config, s: State, e: Event, wait: nat)
    ensures var m := Next(cfg, s, e); After(cfg, s, e, wait) == m.(now := m.now + wait)
  {
    hide Steps.Token, Authorize, TelegramLogin, GoogleLogin, Bootstrap;
    var m := Next(cfg, s, e);
    assert [Tick(wait)][1..] == [];
    assert Next(cfg, m, Tick(wait)) == m.(now := m.now + wait);
    hide Next;
    assert Run(cfg, m, [Tick(wait)]) == Run(cfg, Next(cfg, m, Tick(wait)), []);
  }

  /** The request is handed a code for user `u`, and the code is exchanged for tokens once. */
  predicate CodeAndTokens(cfg: Config, t: State, r: AuthorizeRequest, c: nat, u: nat, v: string, later: nat,
                          raw: string, again: string)
  {
    && c < |t.clients| && u < |t.users|
    && HandsOutCode(cfg, t, r) && CodeSent(cfg, t, r, Authorize(cfg, t, r), c, u)
    && RedeemedOnce(cfg, t, Waited(cfg, t, r, later), r, v, raw, again)
  }

  lemma {:induction false} NewCustomerFlow(cfg: Config, s: State, out: Outcome, t: State, c: nat, wait: nat,
                                           r: AuthorizeRequest, v: string, pre: string, pad: string, post: string,
                                           later: nat, raw: string, again: string)
    requires NewCustomer(cfg, s, out) && t == out.state.(now := s.now + wait) && DistinctIds(t.clients)
    requires wait + 1_000_000 <= cfg.browserLife && later <= cfg.codeLife
    requires AsksForCode(cfg, t, r, c, v, pre, pad, post) && r.cookie == out.reply.cookie && Fresh(cfg, t, raw)
    ensures CodeAndTokens(cfg, t, r, c, |s.users|, v, later, raw, again)
  {
    FreshExactly(cfg, t, raw);
    hide HandsOutCode, CodeSent, RedeemedOnce, Waited, Fresh, DistinctIds, Strip, NamesS256, Challenges, FreshCode,
        Urls.Parse, Authorize, LoginCookie;
    CustomerGetsCode(cfg, t, r, c, |s.users|, s.now, v, pre, pad, post);
    CodeFlow(cfg, t, r, v, pre, pad, post, later, raw, again);
  }

  /** From nothing to tokens: the first login of an identity makes an account; with the cookie of that login,
      while it lives, the authorization endpoint hands out a code, and the client exchanges it, with its
      verifier and within its life, exactly once. */
  lemma {:induction false} FirstLoginFlow(cfg: Config, s: State, e: Event, c: nat, wait: nat, r: AuthorizeRequest,
                                          v: string, pre: string, pad: string, post: string, later: nat,
                                          raw: string, again: string)
    requires DistinctIds(s.clients) && FirstLogin(cfg, s, e, c) && wait + 1_000_000 <= cfg.browserLife
    requires later <= cfg.codeLife
    ensures var t, out := After(cfg, s, e, wait), Step(cfg, s, e);
            && NewCustomer(cfg, s, out)
            && (AsksForCode(cfg, t, r, c, v, pre, pad, post) && r.cookie == out.reply.cookie && Fresh(cfg, t, raw) ==>
                  CodeAndTokens(cfg, t, r, c, |s.users|, v, later, raw, again))
  {
    var t, out := After(cfg, s, e, wait), Step(cfg, s, e);
    FirstLoginLeaves(cfg, s, e, c);
    AfterState(cfg, s, e, wait);
    SameInstant(cfg, s, out);
    StepIds(cfg, s, e);
    assert Next(cfg, s, e) == out.state;
    hide *;
    assert t == out.state.(now := s.now + wait) && DistinctIds(t.clients);
    if AsksForCode(cfg, t, r, c, v, pre, pad, post) && r.cookie == out.reply.cookie && Fresh(cfg, t, raw) {
      NewCustomerFlow(cfg, s, out, t, c, wait, r, v, pre, pad, post, later, raw, again);
    }
  }

  lemma SameInstant(cfg: Config, s: State, out: Outcome)
    ensures NewCustomer(cfg, s, out) ==> out.state.now == s.now && out.reply.Tokens?
  {
  }
}
