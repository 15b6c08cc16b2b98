/** E-mail addresses are a key: pairwise distinct and in normal form, in every run. */
module Emails {
  import opened Text
  import opened Store
  import opened Steps
  import opened Machine
  import opened Effects
  import TelegramWidget

  datatype EmailEffect = Unchanged | Added(email: string) | Changed(u: nat, email: string)

  predicate SameEmails(users: seq<User>, others: seq<User>) {
    |users| == |others| && forall u | 0 <= u < |users| :: others[u].email == users[u].email
  }

  predicate FreeEmail(cfg: Config, s: State, email: string) {
    && Normal(cfg.lower, email) == email
    && forall u | 0 <= u < |s.users| :: s.users[u].email != email
  }

  predicate EmailDid(cfg: Config, s: State, t: State, effect: EmailEffect) {
    match effect
    case Unchanged => SameEmails(s.users, t.users)
    case Added(email) =>
      && FreeEmail(cfg, s, email) && |t.users| == |s.users| + 1
      && SameEmails(s.users, t.users[..|s.users|]) && t.users[|s.users|].email == email
    case Changed(u, email) =>
      && FreeEmail(cfg, s, email) && u < |s.users| && |t.users| == |s.users| && t.users[u].email == email
      && forall v | 0 <= v < |s.users| && v != u :: t.users[v].email == s.users[v].email
  }

  predicate AddressText(s: string) {
    forall i | 0 <= i < |s| :: '-' <= s[i] <= '9' || s[i] == '@' || 'a' <= s[i] <= 'z'
  }

  lemma DecimalIsAddressText(id: int)
    ensures AddressText(Decimal(id))
  {
    var d := DecimalNat(if id < 0 then -id else id);
    forall i | 0 <= i < |d| ensures '0' <= d[i] <= '9' {
      assert d[i] in d;
    }
  }

  lemma AddressTextIsNormal(lower: CaseTable, s: string)
    requires CaseTableOk(lower) && AddressText(s)
    ensures Normal(lower, s) == s
  {
    forall c | c in s ensures lower(c) == [c] {
      var i :| 0 <= i < |s| && s[i] == c;
    }
    LowerFixed(lower, s);
    StripPadded("", s, "");
    assert "" + s + "" == s;
  }

  /** The address made up for a Telegram account is already in normal form. */
  lemma SyntheticIsNormal(lower: CaseTable, id: int)
    requires CaseTableOk(lower)
    ensures Normal(lower, SyntheticEmail(id)) == SyntheticEmail(id)
  {
    DecimalIsAddressText(id);
    assert AddressText("tg.") && AddressText(TELEGRAM_DOMAIN);
    AddressTextIsNormal(lower, SyntheticEmail(id));
  }

  lemma IssuedKeepsEmails(cfg: Config, s: State, u: nat, c: nat, scope: string, how: LoginMethod, raw: string,
                          origin: Origin)
    requires u < |s.users| && c < |s.clients|
    ensures SameEmails(s.users, Issued(cfg, s, u, c, scope, how, raw, origin).users)
  {
  }

  lemma ResolveEmails(cfg: Config, s: State, provider: Provider, subject: string, email: string, passwordHash: string)
    returns (effect: EmailEffect)
    requires Normal(cfg.lower, email) == email
    ensures var r := Resolve(s, provider, subject, email, passwordHash);
            r.Resolved? ==> EmailDid(cfg, s, r.state, effect)
    ensures !effect.Changed?
  {
    var r := Resolve(s, provider, subject, email, passwordHash);
    effect := if r.Resolved? && |r.state.users| > |s.users| then Added(email) else Unchanged;
    if effect.Added? {
      assert r.state.users[..|s.users|] == s.users;
    }
  }

  lemma SameEmailsAfter(cfg: Config, s: State, m: State, t: State, effect: EmailEffect)
    requires EmailDid(cfg, s, m, effect) && SameEmails(m.users, t.users)
    ensures EmailDid(cfg, s, t, effect)
  {
  }

  lemma FederatedEmails(cfg: Config, s: State, provider: Provider, subject: string, email: string,
                        clientId: string, scope: string, raw: string, passwordHash: string)
                            returns (effect: EmailEffect)
    requires Normal(cfg.lower, email) == email
    ensures EmailDid(cfg, s, FederatedLogin(cfg, s, provider, subject, email, clientId, scope, raw,
        passwordHash).state, effect)
    ensures !effect.Changed?
  {
    var out := FederatedLogin(cfg, s, provider, subject, email, clientId, scope, raw, passwordHash);
    FederatedOutcome(cfg, s, provider, subject, email, clientId, scope, raw, passwordHash);
    var r := Resolve(s, provider, subject, email, passwordHash);
    effect := ResolveEmails(cfg, s, provider, subject, email, passwordHash);
    if out.state == s {
      effect := Unchanged;
    } else if out.reply.Tokens? {
      var c := AuthenticateClient(cfg, s, Creds(clientId, "", "", "")).value;
      IssuedKeepsEmails(cfg, r.state, r.user, c, scope, HowOf(provider), raw, FromLogin(HowOf(provider)));
      SameEmailsAfter(cfg, s, r.state, out.state, effect);
    }
  }

  lemma TokenEmails(cfg: Config, s: State, creds: Creds, grant: Grant)
    ensures EmailDid(cfg, s, Token(cfg, s, creds, grant).state, Unchanged)
  {
    hide AuthenticateClient, IssuedScope;
    if grant.AuthorizationCode? {
      var client := AuthenticateClient(cfg, s, creds);
      if client.Some? && grant.code != "" && grant.redirectUri != "" {
        CodeOutcome(cfg, s, client.value, grant.code, grant.redirectUri, grant.verifier, grant.raw);
      }
    }
  }

  lemma PatchEmails(cfg: Config, s: State, u: nat, p: UserPatch) returns (effect: EmailEffect)
    requires CaseTableOk(cfg.lower)
    ensures EmailDid(cfg, s, PatchUser(cfg, s, u, p).state, effect)
    ensures PatchedEmail(cfg, s, UserPatched(u, p), effect)
  {
    hide Normal;
    var t := PatchUser(cfg, s, u, p).state;
    effect := Unchanged;
    if u < |s.users| && t.users[u].email != s.users[u].email {
      NormalIdempotent(cfg.lower, p.email.value);
      effect := Changed(u, t.users[u].email);
    }
  }

  /** The e-mail address a patch would give to an existing user, if nobody has it. */
  predicate ChangesEmail(cfg: Config, s: State, e: Event) {
    && e.UserPatched? && e.user < |s.users| && e.userPatch.email.Some?
    && forall v | 0 <= v < |s.users| :: s.users[v].email != Normal(cfg.lower, e.userPatch.email.value)
  }

  /** Addresses change exactly by such patches, to the normal form of what the patch says. */
  predicate PatchedEmail(cfg: Config, s: State, e: Event, effect: EmailEffect) {
    && (effect.Changed? <==> ChangesEmail(cfg, s, e))
    && (effect.Changed? ==> effect == Changed(e.user, Normal(cfg.lower, e.userPatch.email.value)))
  }

  lemma CreateEmails(cfg: Config, s: State, email: string, kind: Kind, hash: string) returns (effect: EmailEffect)
    requires CaseTableOk(cfg.lower)
    ensures EmailDid(cfg, s, CreateUser(cfg, s, email, kind, hash).state, effect)
    ensures !effect.Changed?
  {
    var t := CreateUser(cfg, s, email, kind, hash).state;
    NormalIdempotent(cfg.lower, email);
    effect := if |t.users| == |s.users| then Unchanged else Added(Normal(cfg.lower, email));
  }

  lemma BootstrapEmails(cfg: Config, s: State) returns (effect: EmailEffect)
    requires CaseTableOk(cfg.lower)
    ensures EmailDid(cfg, s, Bootstrap(cfg, s), effect)
    ensures !effect.Changed?
  {
    NormalIdempotent(cfg.lower, cfg.adminEmail);
    effect := if |Bootstrap(cfg, s).users| == |s.users| then Unchanged else Added(Normal(cfg.lower, cfg.adminEmail));
  }

  lemma TelegramEmails(cfg: Config, s: State, r: TelegramRequest) returns (effect: EmailEffect)
    requires CaseTableOk(cfg.lower)
    ensures EmailDid(cfg, s, TelegramLogin(cfg, s, r).state, effect)
    ensures !effect.Changed?
  {
    hide TelegramEmail, FederatedLogin, TelegramWidget.Verdict, WidgetPayload;
    SyntheticIsNormal(cfg.lower, r.id);
    effect := FederatedEmails(cfg, s, Telegram, Decimal(r.id), SyntheticEmail(r.id), r.clientId, r.scope, r.raw,
        r.passwordHash);
    if TelegramLogin(cfg, s, r).state == s {
      effect := Unchanged;
    }
  }

  lemma GoogleEmails(cfg: Config, s: State, r: GoogleRequest) returns (effect: EmailEffect)
    requires CaseTableOk(cfg.lower)
    ensures EmailDid(cfg, s, GoogleLogin(cfg, s, r).state, effect)
    ensures !effect.Changed?
  {
    effect := Unchanged;
    if r.idToken.Some? && GoogleLogin(cfg, s, r).state != s {
      var (sub, email) := r.idToken.value;
      NormalIdempotent(cfg.lower, email);
      effect := FederatedEmails(cfg, s, Google, sub, Normal(cfg.lower, email), r.clientId, r.scope, r.raw,
          r.passwordHash);
    }
  }

  lemma OtherEmails(cfg: Config, s: State, e: Event)
    requires !e.TokenRequest? && !e.TelegramRequested? && !e.GoogleRequested? && !e.UserCreated? && !e.UserPatched?
        && !e.Restarted?
    ensures EmailDid(cfg, s, Next(cfg, s, e), Unchanged)
  {
    hide Token, Authorize, TelegramLogin, GoogleLogin, Bootstrap;
    if e.AuthorizeRequested? {
      AuthorizeOnlyAddsCodes(cfg, s, e.authorize);
    }
  }

  lemma StepEmails(cfg: Config, s: State, e: Event) returns (effect: EmailEffect)
    requires CaseTableOk(cfg.lower)
    ensures EmailDid(cfg, s, Next(cfg, s, e), effect)
    ensures PatchedEmail(cfg, s, e, effect)
  {
    effect := Unchanged;
    match e {
      case TokenRequest(creds, grant) => TokenEmails(cfg, s, creds, grant);
      case TelegramRequested(r) => effect := TelegramEmails(cfg, s, r);
      case GoogleRequested(r) => effect := GoogleEmails(cfg, s, r);
      case UserCreated(email, kind, hash) => effect := CreateEmails(cfg, s, email, kind, hash);
      case UserPatched(u, p) => effect := PatchEmails(cfg, s, u, p);
      case Restarted => effect := BootstrapEmails(cfg, s);
      case _ => OtherEmails(cfg, s, e);
    }
  }

  // ---------------------------------------------------------------- the invariant

  predicate EmailsOk(cfg: Config, s: State) {
    && (forall u | 0 <= u < |s.users| :: Normal(cfg.lower, s.users[u].email) == s.users[u].email)
    && (forall u, v | 0 <= u < v < |s.users| :: s.users[u].email != s.users[v].email)
  }

  lemma EmailsOkEffect(cfg: Config, s: State, t: State, effect: EmailEffect)
    requires EmailsOk(cfg, s) && EmailDid(cfg, s, t, effect)
    ensures EmailsOk(cfg, t)
  {
    if effect.Added? {
      forall u | 0 <= u < |s.users| ensures t.users[u].email == s.users[u].email {
        assert t.users[u] == t.users[..|s.users|][u];
      }
    }
  }

  lemma {:induction false} EmailsOkRun(cfg: Config, s: State, es: seq<Event>)
    requires CaseTableOk(cfg.lower) && EmailsOk(cfg, s)
    ensures EmailsOk(cfg, Run(cfg, s, es))
    decreases |es|
  {
    if es != [] {
      var effect := StepEmails(cfg, s, es[0]);
      EmailsOkEffect(cfg, s, Next(cfg, s, es[0]), effect);
      EmailsOkRun(cfg, Next(cfg, s, es[0]), es[1..]);
    }
  }

  /** In every reachable state stored addresses are pairwise distinct and in normal form. */
  lemma {:induction false} ReachableEmails(cfg: Config, es: seq<Event>)
    requires CaseTableOk(cfg.lower)
    ensures EmailsOk(cfg, Run(cfg, EMPTY, es))
  {
    EmailsOkRun(cfg, EMPTY, es);
  }

  /** A user name in any letter case and with any outer whitespace finds exactly the user whose address
      it spells. */
  lemma SpellingFindsUser(cfg: Config, s: State, u: nat, pre: string, spelling: string, post: string)
    requires EmailsOk(cfg, s) && u < |s.users|
    requires AllSpace(pre) && AllSpace(post) && Stripped(spelling)
    requires Lower(cfg.lower, spelling) == s.users[u].email
    ensures FindUser(s.users, Normal(cfg.lower, pre + spelling + post)) == Some(u)
  {
    NormalVariant(cfg.lower, pre, spelling, post);
    var found := FindUser(s.users, s.users[u].email);
    assert found.Some?;
  }
}
