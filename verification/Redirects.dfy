/** Where the authorization endpoint sends the browser (section 4.1.2 of RFC 6749). */
module Redirects {
  import opened Text
  import opened Scopes
  import opened Store
  import opened Steps
  import Urls

  /** The `Location` of a redirect reply. */
  function Location(cfg: Config, reply: Reply): Option<string>
    requires reply.Redirect?
  {
    Urls.AppendQuery(cfg.authority, reply.uri, reply.params)
  }

  /** `url` has the components of `uri`, and its query parameters overridden by those given. */
  predicate Extends(cfg: Config, url: string, uri: string, given: map<string, string>) {
    var was, now := Urls.Parse(cfg.authority, uri), Urls.Parse(cfg.authority, url);
    && was.Some? && now.Some? && now.value == was.value.(query := now.value.query)
    && Urls.Params(now.value) == Urls.Params(was.value) + given
  }

  predicate RegisteredUri(s: State, clientId: string, uri: string) {
    exists c :: 0 <= c < |s.clients| && s.clients[c].clientId == clientId && uri in s.clients[c].redirectUris
  }

  /** The parameters carry the state of the request, and a code or an error but not both. */
  predicate Answers(params: map<string, string>, state: string) {
    && (state != "" ==> "state" in params && params["state"] == state)
    && ("code" in params <==> "error" !in params)
  }

  lemma KeysDiffer()
    ensures "code" != "state" && "error" != "state" && "error" != "code"
    ensures "error_description" != "state" && "error_description" != "code" && "error_description" != "error"
  {
    assert "error"[0] == 'e' && "state"[0] == 's';
    assert |"code"| == 4 && |"error_description"| == 17;
  }

  lemma CodeAnswers(raw: string, state: string)
    ensures var p := WithState(map["code" := raw], state);
            Answers(p, state) && "code" in p && p["code"] == raw
  {
    KeysDiffer();
  }

  lemma ErrorAnswers(error: string, state: string, description: string)
    ensures var p := ErrorParams(error, state, description);
            Answers(p, state) && "code" !in p
  {
    KeysDiffer();
  }

  /** The code is for the user of a valid login cookie, an active customer who is not locked, and for a
      public client that may use codes; it holds what the request asked for. */
  predicate CodeFor(cfg: Config, s: State, r: AuthorizeRequest, code: Code) {
    && code.client < |s.clients| && FindClient(s.clients, Strip(r.clientId)) == Some(code.client)
    && s.clients[code.client].isPublic && "authorization_code" in s.clients[code.client].grants
    && code.user < |s.users| && r.cookie.Some? && CookieUser(s, r.cookie.value) == Some(code.user)
    && s.users[code.user].kind == Customer && s.users[code.user].active && !Locked(s.users[code.user], s.now)
    && code.scope == UserScope(r.scope, s.clients[code.client].scopes, s.users[code.user].roles)
    && code.challenge == Strip(r.challenge) != "" && IsS256(r.challengeMethod)
    && code.hash == cfg.sha(r.raw) && code.redirectUri == r.redirectUri
    && code.expiresAt == s.now + cfg.codeLife && code.consumedAt == None
  }

  /** A new code row for the request was stored and its text is in the reply. */
  predicate CodeGiven(cfg: Config, s: State, r: AuthorizeRequest, out: Outcome)
    requires out.reply.Redirect?
  {
    && out.reply.params == WithState(map["code" := r.raw], r.state)
    && |out.state.codes| == |s.codes| + 1 && out.state == s.(codes := s.codes + [out.state.codes[|s.codes|]])
    && CodeFor(cfg, s, r, out.state.codes[|s.codes|])
  }

  /** What passing both gates says about the request. */
  lemma GatesPassed(cfg: Config, s: State, c: nat, r: AuthorizeRequest) returns (u: nat)
    requires c < |s.clients| && FindClient(s.clients, Strip(r.clientId)) == Some(c)
    requires AuthorizeGate(s, c, r) == None
    ensures r.cookie.Some? && CookieUser(s, r.cookie.value) == Some(u) && u < |s.users|
    ensures RegisterGate(s, c, u) == None ==> CodeFor(cfg, s, r, NewCode(cfg, s, c, u, r))
  {
    hide UserScope;
    u := CookieUser(s, r.cookie.value).value;
  }

  /** The two forms of a redirect: a code and its row, or an error and nothing changed. */
  lemma RedirectForms(cfg: Config, s: State, c: nat, r: AuthorizeRequest) returns (error: string, description: string)
    requires c < |s.clients| && FindClient(s.clients, Strip(r.clientId)) == Some(c)
    ensures var out := AuthorizationRedirect(cfg, s, c, r);
            out.reply.Redirect? ==>
              && out.reply.uri == r.redirectUri && Urls.Parse(cfg.authority, r.redirectUri).Some?
              && (CodeGiven(cfg, s, r, out) || out == Outcome(s,
                  Redirect(r.redirectUri, ErrorParams(error, r.state, description))))
  {
    hide AuthorizeGate, RegisterGate, CodeFor, NewCode, CookieUser, ErrorParams, WithState, Urls.Parse;
    error, description := "", "";
    match AuthorizeGate(s, c, r) {
      case Some((e, d)) => error, description := e, d;
      case None =>
        var u := GatesPassed(cfg, s, c, r);
        match RegisterGate(s, c, u) {
          case Some(e) => error := e;
          case None =>
        }
    }
  }

  /** The request may have a code: a registered URI, one that can be parsed, of a known public client that
      may use codes, a challenge with method S256, and the login cookie of an active, unlocked customer. */
  predicate MayHaveCode(cfg: Config, s: State, r: AuthorizeRequest) {
    var found := FindClient(s.clients, Strip(r.clientId));
    && found.Some?
    && var client := s.clients[found.value];
    && r.redirectUri in client.redirectUris && client.isPublic && "authorization_code" in client.grants
    && Strip(r.responseType) == "code" && Strip(r.challenge) != "" && IsS256(r.challengeMethod)
    && r.cookie.Some? && CookieUser(s, r.cookie.value).Some?
    && var user := s.users[CookieUser(s, r.cookie.value).value];
    && user.kind == Customer && user.active && !Locked(user, s.now)
    && FindCode(s.codes, cfg.sha(r.raw)).None? && Urls.Parse(cfg.authority, r.redirectUri).Some?
  }

  lemma GatesExactly(cfg: Config, s: State, c: nat, r: AuthorizeRequest)
    requires c < |s.clients|
    ensures AuthorizeGate(s, c, r) == None <==>
              && Strip(r.responseType) == "code" && s.clients[c].isPublic && Strip(r.challenge) != ""
                  && IsS256(r.challengeMethod)
              && r.cookie.Some? && CookieUser(s, r.cookie.value).Some?
  {
  }

  /** A code is stored if and only if the request may have one; nothing else the endpoint does changes a table. */
  lemma CodeStoredExactly(cfg: Config, s: State, r: AuthorizeRequest)
    ensures Authorize(cfg, s, r).state != s <==> MayHaveCode(cfg, s, r)
    ensures MayHaveCode(cfg, s, r) ==>
              Authorize(cfg, s, r).reply == Redirect(r.redirectUri, WithState(map["code" := r.raw], r.state))
  {
    var found := FindClient(s.clients, Strip(r.clientId));
    if found.Some? {
      GatesExactly(cfg, s, found.value, r);
      hide AuthorizeGate, Strip, IsS256, CookieUser, NewCode, ErrorParams, WithState, Urls.Parse;
    }
  }

  /** Every redirect goes to a URI registered for the client: scheme, authority, path and fragment are those
      of the URI, its own query parameters are kept and the reply's parameters added. The state of the
      request comes back verbatim. A code is handed out exactly when it was stored, and only
      for the customer of the login cookie. */
  lemma AuthorizeLocation(cfg: Config, s: State, r: AuthorizeRequest)
    requires Authorize(cfg, s, r).reply.Redirect?
    ensures var out := Authorize(cfg, s, r);
            var url, given := Location(cfg, out.reply), out.reply.params;
            && RegisteredUri(s, Strip(r.clientId), r.redirectUri)
            && url.Some? && Extends(cfg, url.value, r.redirectUri, given)
            && Answers(given, r.state)
            && if "code" in given then given["code"] == r.raw && CodeGiven(cfg, s, r, out) else out.state == s
  {
    var c := FindClient(s.clients, Strip(r.clientId)).value;
    var out := AuthorizationRedirect(cfg, s, c, r);
    var error, description := RedirectForms(cfg, s, c, r);
    Urls.AppendedQuery(cfg.authority, r.redirectUri, out.reply.params);
    hide Urls.Parse, Urls.Unparse, Urls.Params;
    CodeAnswers(r.raw, r.state);
    ErrorAnswers(error, r.state, description);
  }
}
