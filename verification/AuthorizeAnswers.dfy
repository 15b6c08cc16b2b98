/** What the authorization endpoint answers (section 4.1.2 of RFC 6749), row by row and word by word. */
module AuthorizeAnswers {
  import opened Text
  import opened Scopes
  import opened Store
  import opened Steps
  import opened Machine
  import opened Clients
  import opened Answers
  import Urls

  /** The one challenge method, as it may be spelled; the long s has the capital `S`. */
  predicate NamesS256(m: string) {
    var x := Strip(m);
    |x| == 4 && (x[0] == 'S' || x[0] == 's' || x[0] == '\U{017F}') && x[1..] == "256"
  }

  /** The only challenge method that is accepted is S256. */
  lemma MethodExactly(m: string)
    ensures IsS256(m) <==> NamesS256(m)
  {
    var x := Strip(m);
    hide Strip;
    if |x| == 4 {
      assert x == [x[0]] + x[1..];
      assert "S256" == ['S'] + "256" && "s256" == ['s'] + "256" && "\U{017F}256" == ['\U{017F}'] + "256";
    }
  }

  /** A login cookie of this server that is in time. */
  predicate GoodCookie(cookie: Option<Claims>, now: nat) {
    && cookie.Some? && cookie.value.BrowserLogin? && cookie.value.sub.UserSubject?
    && cookie.value.iat * 1_000_000 <= now < cookie.value.exp * 1_000_000
  }

  /** The first thing that is wrong with a request for a code, as the error and description that are sent. */
  function Fault(s: State, c: nat, r: AuthorizeRequest): Option<(string, string)>
    requires c < |s.clients|
  {
    if Strip(r.responseType) != "code" then
      Some(("unsupported_response_type", "Only response_type=code is supported"))
    else if !s.clients[c].isPublic then
      Some(("unauthorized_client", "Authorization Code flow is for public clients only"))
    else if Strip(r.challenge) == "" || !NamesS256(r.challengeMethod) then
      Some(("invalid_request", "code_challenge and code_challenge_method=S256 are required"))
    else if r.cookie.None? then
      Some(("login_required", "Sign in first (e.g. POST /oauth/federated/google or /oauth/federated/telegram)"))
    else if !GoodCookie(r.cookie, s.now) then Some(("login_required", "Invalid or expired login session"))
    else if r.cookie.value.sub.id >= |s.users| then Some(("login_required", "User not found"))
    else
      var user := s.users[r.cookie.value.sub.id];
      if "authorization_code" !in s.clients[c].grants then Some(("unauthorized_client", ""))
      else if user.kind == Staff || !user.active || LockedNow(user, s.now) then Some(("access_denied", ""))
      else None
  }

  function Optional(name: string, v: string): map<string, string> { if v == "" then map[] else map[name := v] }

  /** An error goes back to the client with its description and the state of the request; nothing is stored. */
  predicate FaultSent(s: State, r: AuthorizeRequest, out: Outcome, fault: (string, string)) {
    out == Outcome(s, Redirect(r.redirectUri, map["error" := fault.0] + Optional("error_description", fault.1)
                                              + Optional("state", r.state)))
  }

  /** The code goes back with the state, and is stored for user `u`, bound to the client, the URI, the scope
      granted now and the challenge, for the lifetime of codes. */
  predicate CodeSent(cfg: Config, s: State, r: AuthorizeRequest, out: Outcome, c: nat, u: nat)
    requires c < |s.clients| && u < |s.users|
  {
    && out.reply == Redirect(r.redirectUri, map["code" := r.raw] + Optional("state", r.state))
    && out.state == s.(codes := s.codes + [
         Code(cfg.sha(r.raw), c, u, r.redirectUri, UserScope(r.scope, s.clients[c].scopes, s.users[u].roles),
              Strip(r.challenge), s.now + cfg.codeLife, None)])
  }

  lemma SentParams(code: string, error: string, description: string, state: string)
    ensures WithState(map["code" := code], state) == map["code" := code] + Optional("state", state)
    ensures ErrorParams(error, state, description)
         == map["error" := error] + Optional("error_description", description) + Optional("state", state)
  {
    assert "error_description"[1] != "state"[1] && "error_description"[0] == "error"[0];
    assert |"error_description"| == 17 && |"error"| == 5 && |"state"| == 5 && "error"[0] != "state"[0];
  }

  /** No row has this code. */
  predicate FreshCode(cfg: Config, s: State, raw: string) {
    forall k | 0 <= k < |s.codes| :: s.codes[k].hash != cfg.sha(raw)
  }

  lemma FaultExactly(s: State, c: nat, r: AuthorizeRequest)
    requires c < |s.clients|
    ensures var gate := AuthorizeGate(s, c, r);
            if gate.Some? then Fault(s, c, r) == gate
            else
              && GoodCookie(r.cookie, s.now) && r.cookie.value.sub.id < |s.users|
              && CookieUser(s, r.cookie.value) == Some(r.cookie.value.sub.id)
              && var gate2 := RegisterGate(s, c, r.cookie.value.sub.id);
              Fault(s, c, r) == match gate2 case None => None case Some(error) => Some((error, ""))
  {
    MethodExactly(r.challengeMethod);
    hide Strip, IsS256, NamesS256;
  }

  predicate AuthorizeAnswer(cfg: Config, s: State, r: AuthorizeRequest, out: Outcome, c: nat)
    requires c < |s.clients|
  {
    var fault := Fault(s, c, r);
    if r.redirectUri !in s.clients[c].redirectUris then out == Outcome(s, Refused(InvalidRequest))
    else if Urls.Parse(cfg.authority, r.redirectUri).None? then out == Outcome(s, Refused(ServerError))
    else if fault.Some? then FaultSent(s, r, out, fault.value)
    else if FreshCode(cfg, s, r.raw) then
      && GoodCookie(r.cookie, s.now) && r.cookie.value.sub.id < |s.users|
      && CodeSent(cfg, s, r, out, c, r.cookie.value.sub.id)
    else out == Outcome(s, Refused(ServerError))
  }

  lemma FaultRedirects(cfg: Config, s: State, r: AuthorizeRequest, c: nat)
    requires c < |s.clients|
    ensures Fault(s, c, r).Some? ==>
              var fault := Fault(s, c, r).value;
              AuthorizationRedirect(cfg, s, c, r)
              == if Urls.Parse(cfg.authority, r.redirectUri).None? then Outcome(s, Refused(ServerError))
                 else Outcome(s, Redirect(r.redirectUri, ErrorParams(fault.0, r.state, fault.1)))
  {
    FaultExactly(s, c, r);
    hide AuthorizeGate, RegisterGate, Fault, CookieUser, GoodCookie, Urls.Parse, WithState, ErrorParams, NewCode,
        FindCode;
  }

  lemma NoFaultRedirects(cfg: Config, s: State, r: AuthorizeRequest, c: nat)
    requires c < |s.clients|
    ensures Fault(s, c, r).None? ==>
              && GoodCookie(r.cookie, s.now) && r.cookie.value.sub.id < |s.users|
              && AuthorizationRedirect(cfg, s, c, r)
                 == if Urls.Parse(cfg.authority, r.redirectUri).None? || !FreshCode(cfg, s, r.raw)
                    then Outcome(s, Refused(ServerError))
                    else Outcome(s.(codes := s.codes + [NewCode(cfg, s, c, r.cookie.value.sub.id, r)]),
                                 Redirect(r.redirectUri, WithState(map["code" := r.raw], r.state)))
  {
    FaultExactly(s, c, r);
    assert FreshCode(cfg, s, r.raw) <==> FindCode(s.codes, cfg.sha(r.raw)).None?;
    hide AuthorizeGate, RegisterGate, Fault, CookieUser, GoodCookie, Urls.Parse, WithState, ErrorParams, NewCode,
        FindCode, FreshCode;
  }

  lemma RedirectAnswers(cfg: Config, s: State, r: AuthorizeRequest, c: nat)
    requires c < |s.clients| && r.redirectUri in s.clients[c].redirectUris
    ensures AuthorizeAnswer(cfg, s, r, AuthorizationRedirect(cfg, s, c, r), c)
  {
    FaultRedirects(cfg, s, r, c);
    NoFaultRedirects(cfg, s, r, c);
    var fault := Fault(s, c, r);
    SentParams(r.raw, if fault.Some? then fault.value.0 else "", if fault.Some? then fault.value.1 else "", r.state);
    hide Fault, GoodCookie, Urls.Parse, WithState, ErrorParams, Optional, Strip, UserScope, FreshCode,
        AuthorizationRedirect;
  }

  lemma EndpointAnswers(cfg: Config, s: State, r: AuthorizeRequest, c: nat)
    requires c < |s.clients| && FindClient(s.clients, Strip(r.clientId)) == Some(c)
    ensures AuthorizeAnswer(cfg, s, r, Authorize(cfg, s, r), c)
  {
    if r.redirectUri in s.clients[c].redirectUris {
      RedirectAnswers(cfg, s, r, c);
      hide AuthorizeAnswer;
    }
    hide Strip, FindClient, AuthorizationRedirect, Fault, Urls.Parse, CodeSent, FaultSent;
  }

  /** Every request of a known client is answered exactly so. */
  lemma AuthorizeOf(cfg: Config, s: State, r: AuthorizeRequest, c: nat)
    requires DistinctIds(s.clients)
    ensures c < |s.clients| && s.clients[c].clientId == Strip(r.clientId) ==>
              AuthorizeAnswer(cfg, s, r, Step(cfg, s, AuthorizeRequested(r)), c)
  {
    hide Strip, AuthorizeAnswer, Authorize, DistinctIds, Steps.Token, Bootstrap, TelegramLogin, GoogleLogin;
    FoundExactly(s.clients, Strip(r.clientId), c);
    if c < |s.clients| && s.clients[c].clientId == Strip(r.clientId) {
      EndpointAnswers(cfg, s, r, c);
    }
  }

  /** A request of an unknown client is refused without a redirect. */
  lemma AuthorizeOfNobody(cfg: Config, s: State, r: AuthorizeRequest)
    ensures (forall c | 0 <= c < |s.clients| :: s.clients[c].clientId != Strip(r.clientId)) ==>
              Step(cfg, s, AuthorizeRequested(r)) == Outcome(s, Refused(InvalidRequest))
  {
    var found := FindClient(s.clients, Strip(r.clientId));
    hide Strip, FindClient, AuthorizationRedirect, Steps.Token, Bootstrap, TelegramLogin, GoogleLogin;
  }
}
