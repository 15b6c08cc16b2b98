/** Where authorization codes come from: behind every code, and every token exchanged for it, stands a
    federated login not longer ago than a browser login lives. */
module BrowserLogins {
  import opened Text
  import opened Clock
  import opened Store
  import opened Steps
  import opened Machine
  import opened Effects
  import opened Chains
  import opened Codes
  import opened AdminGate
  import opened Scopes
  import opened Pkce
  import Lockout
  import TelegramWidget

  /** The cookies of the run were signed by this server earlier in it. */
  predicate GenuineCookies(cfg: Config, s: State, es: seq<Event>) {
    forall i | 0 <= i < |es| && es[i].AuthorizeRequested? && es[i].authorize.cookie.Some?
      :: es[i].authorize.cookie.value in Minted(cfg, s, es[..i])
  }

  /** The event is a federated login at `s` that succeeds and logs `u` in. */
  predicate SignsIn(cfg: Config, s: State, e: Event, u: nat) {
    && (e.TelegramRequested? || e.GoogleRequested?)
    && var reply := Step(cfg, s, e).reply;
    && reply.Tokens? && reply.access.sub == UserSubject(u)
    && reply.cookie == Some(MintBrowserLogin(cfg, s.now, UserSubject(u)))
  }

  lemma FederatedCookie(cfg: Config, s: State, provider: Provider, subject: string, email: string,
                        clientId: string, scope: string, raw: string, passwordHash: string)
    ensures var reply := FederatedLogin(cfg, s, provider, subject, email, clientId, scope, raw, passwordHash).reply;
            reply.Tokens? ==>
              && reply.access.Access? && reply.access.sub.UserSubject?
              && reply.cookie == Some(MintBrowserLogin(cfg, s.now, reply.access.sub))
  {
  }

  /** Only federated logins sign browser-login tokens. */
  lemma CookiesFromLogins(cfg: Config, s: State, e: Event)
    ensures var reply := Step(cfg, s, e).reply;
            reply.Tokens? ==>
              && reply.access.Access?
              && (reply.cookie.Some? ==> reply.access.sub.UserSubject? && SignsIn(cfg, s, e, reply.access.sub.id))
  {
    hide Token, Authorize, FederatedLogin, TelegramWidget.Verdict, Bootstrap, KnownPrefix, WidgetPayload, Decimal;
    match e {
      case AuthorizeRequested(r) => AuthorizeOnlyAddsCodes(cfg, s, r);
      case TokenRequest(creds, grant) => var _, _, _ := TokenGranted(cfg, s, creds, grant);
      case TelegramRequested(r) =>
        FederatedCookie(cfg, s, Telegram, Decimal(r.id), SyntheticEmail(r.id), r.clientId, r.scope, r.raw,
            r.passwordHash);
      case GoogleRequested(r) =>
        if r.idToken.Some? {
          FederatedCookie(cfg, s, Google, r.idToken.value.0, Normal(cfg.lower, r.idToken.value.1), r.clientId, r.scope,
              r.raw, r.passwordHash);
        }
      case _ =>
    }
  }

  /** A browser-login token of a run was signed at a login in it. */
  lemma {:induction false} CookieSigned(cfg: Config, s: State, es: seq<Event>, claims: Claims) returns (j: nat, u: nat)
    requires claims in Minted(cfg, s, es) && claims.BrowserLogin?
    ensures j < |es|
    ensures var m := Run(cfg, s, es[..j]);
            SignsIn(cfg, m, es[j], u) && claims == MintBrowserLogin(cfg, m.now, UserSubject(u))
    decreases |es|
  {
    hide Step, SignsIn;
    var m := Next(cfg, s, es[0]);
    if claims in Minted(cfg, m, es[1..]) {
      j, u := CookieSigned(cfg, m, es[1..], claims);
      j := j + 1;
      assert es[..j][0] == es[0] && es[..j][1..] == es[1..][..j - 1];
    } else {
      j := 0;
      CookiesFromLogins(cfg, s, es[0]);
      var reply := Step(cfg, s, es[0]).reply;
      u := reply.access.sub.id;
      CookieOf(cfg, s, es[0], u);
      assert es[..0] == [];
    }
  }

  lemma CookieOf(cfg: Config, s: State, e: Event, u: nat)
    ensures SignsIn(cfg, s, e, u) ==> Step(cfg, s, e).reply.cookie == Some(MintBrowserLogin(cfg, s.now, UserSubject(u)))
  {
  }

  lemma RunNext(cfg: Config, s: State, es: seq<Event>, i: nat)
    requires i < |es|
    ensures Run(cfg, s, es[..i + 1]) == Next(cfg, Run(cfg, s, es[..i]), es[i])
    ensures Run(cfg, Run(cfg, s, es[..i + 1]), es[i + 1..]) == Run(cfg, s, es)
  {
    hide Step;
    assert es[..i + 1] == es[..i] + [es[i]] && es == es[..i + 1] + es[i + 1..];
    RunAppend(cfg, s, es[..i], [es[i]]);
    RunAppend(cfg, s, es[..i + 1], es[i + 1..]);
    var m := Run(cfg, s, es[..i]);
    assert [es[i]][1..] == [] && Run(cfg, Next(cfg, m, es[i]), []) == Next(cfg, m, es[i]);
  }

  lemma CodeTableStep(cfg: Config, s: State, e: Event)
    ensures |s.codes| <= |Next(cfg, s, e).codes| <= |s.codes| + 1
    ensures |s.codes| < |Next(cfg, s, e).codes| ==>
              && e.AuthorizeRequested? && e.authorize.cookie.Some?
              && var code := Next(cfg, s, e).codes[|s.codes|];
              && code.expiresAt == s.now + cfg.codeLife && CookieUser(s, e.authorize.cookie.value) == Some(code.user)
  {
    hide Step, CookieUser, GrantedUnder, VerifyS256, Stripped;
    var effect := StepCodeEffect(cfg, s, e);
  }

  /** The step at which a code was stored. */
  lemma {:induction false} StoredAt(cfg: Config, s: State, es: seq<Event>, k: nat) returns (i: nat)
    requires |s.codes| <= k < |Run(cfg, s, es).codes|
    ensures i < |es| && |Run(cfg, s, es[..i]).codes| == k < |Run(cfg, s, es[..i + 1]).codes|
    decreases |es|
  {
    hide Step;
    var m := Next(cfg, s, es[0]);
    CodeTableStep(cfg, s, es[0]);
    if k < |m.codes| {
      i := 0;
      assert es[..0] == [];
      RunNext(cfg, s, es, 0);
    } else {
      i := StoredAt(cfg, m, es[1..], k);
      i := i + 1;
      assert es[..i][0] == es[0] && es[..i][1..] == es[1..][..i - 1];
      assert es[..i + 1][0] == es[0] && es[..i + 1][1..] == es[1..][..i];
    }
  }

  /** Step `i` of the run stored code `k`, and step `j` before it logged its user in, so recently that the
      browser login was still good. */
  predicate Grounded(cfg: Config, s: State, es: seq<Event>, k: nat, i: nat, j: nat) {
    && j < i < |es| && k < |Run(cfg, s, es).codes| && k == |Run(cfg, s, es[..i]).codes|
    && var code, before, login := Run(cfg, s, es).codes[k], Run(cfg, s, es[..i]), Run(cfg, s, es[..j]);
    && SignsIn(cfg, login, es[j], code.user)
    && login.now <= before.now < login.now + cfg.browserLife
    && code.expiresAt == before.now + cfg.codeLife
  }

  lemma CookieInTime(cfg: Config, s: State, minted: nat, u: nat, v: nat)
    requires CookieUser(s, MintBrowserLogin(cfg, minted, UserSubject(u))) == Some(v)
    ensures u == v && s.now < minted + cfg.browserLife
  {
  }

  /** In every run whose cookies are genuine, the user of every code stored in it logged in by a federated
      login earlier in the run, less than the lifetime of a browser login before the code was stored. */
  lemma CodesComeFromLogins(cfg: Config, s: State, es: seq<Event>, k: nat) returns (i: nat, j: nat)
    requires GenuineCookies(cfg, s, es) && |s.codes| <= k < |Run(cfg, s, es).codes|
    ensures Grounded(cfg, s, es, k, i, j)
  {
    hide Step, SignsIn, CookieUser, MintBrowserLogin;
    i := StoredAt(cfg, s, es, k);
    var before, after := Run(cfg, s, es[..i]), Run(cfg, s, es[..i + 1]);
    RunNext(cfg, s, es, i);
    CodeTableStep(cfg, before, es[i]);
    CodesEvolve(cfg, after, es[i + 1..]);
    assert CodeEvolves(after.codes[k], Run(cfg, s, es).codes[k]);
    var claims := es[i].authorize.cookie.value;
    CookieIsLogin(before, claims);
    var u;
    j, u := CookieSigned(cfg, s, es[..i], claims);
    assert es[..i][..j] == es[..j];
    CookieInTime(cfg, before, Run(cfg, s, es[..j]).now, u, after.codes[k].user);
    assert es[..i] == es[..j] + es[j..i];
    RunAppend(cfg, s, es[..j], es[j..i]);
    Lockout.RunTime(cfg, Run(cfg, s, es[..j]), es[j..i]);
  }

  lemma CookieIsLogin(s: State, claims: Claims)
    requires CookieUser(s, claims).Some?
    ensures claims.BrowserLogin?
  {
  }

  /** A refresh row that was minted for a code stored in the run belongs to a user who logged in by a
      federated login, no longer before it than a browser login and a code live together. */
  lemma CodeTokensComeFromLogins(cfg: Config, es: seq<Event>, r: nat) returns (j: nat)
    requires GenuineCookies(cfg, EMPTY, es)
    requires r < |Run(cfg, EMPTY, es).births| && Run(cfg, EMPTY, es).births[r].origin.FromCode?
    ensures var t := Run(cfg, EMPTY, es);
            && j < |es| && |t.births| == |t.refresh| && t.refresh[r].user.Some?
            && var login := Run(cfg, EMPTY, es[..j]);
            && SignsIn(cfg, login, es[j], t.refresh[r].user.value)
            && t.births[r].at < login.now + cfg.browserLife + cfg.codeLife
  {
    hide Step, SignsIn;
    var t := Run(cfg, EMPTY, es);
    ReachableCodesBound(cfg, es);
    assert RootOk(cfg, t, r);
    var i;
    i, j := CodesComeFromLogins(cfg, EMPTY, es, t.births[r].origin.code);
  }
}
