/** External identities over whole runs: a login with a linked identity always reaches the same user. */
module Federation {
  import opened Text
  import opened Scopes
  import opened Store
  import opened Steps
  import opened Machine
  import opened Effects
  import opened Emails
  import TelegramWidget

  /** The user an external identity is linked to. */
  function LinkOf(s: State, provider: Provider, subject: string): Option<nat> {
    match FindIdentity(s.idents, provider, subject) case None => None case Some(k) => Some(s.idents[k].user)
  }

  /** The external identity and the address a federated login presents. */
  datatype Assertion = Assertion(provider: Provider, subject: string, email: string)

  function Presented(cfg: Config, e: Event): Option<Assertion> {
    match e
    case TelegramRequested(r) => Some(Assertion(Telegram, Decimal(r.id), SyntheticEmail(r.id)))
    case GoogleRequested(r) =>
      if r.idToken.Some? then Some(Assertion(Google, r.idToken.value.0, Normal(cfg.lower, r.idToken.value.1))) else None
    case _ => None
  }

  predicate Presents(cfg: Config, e: Event, provider: Provider, subject: string) {
    var a := Presented(cfg, e);
    a.Some? && a.value.provider == provider && a.value.subject == subject
  }

  // ---------------------------------------------------------------- what one event does to links

  /** The presented identity, unlinked so far, is linked to a customer with the presented address, who
      may be new. */
  predicate NewLink(s: State, a: Assertion, t: State) {
    && FindIdentity(s.idents, a.provider, a.subject).None?
    && |t.idents| == |s.idents| + 1 && t.idents[..|s.idents|] == s.idents
    && var link := t.idents[|s.idents|];
    && link.provider == a.provider && link.subject == a.subject && link.user < |t.users| <= |s.users| + 1
    && t.users[link.user].kind == Customer && t.users[link.user].email == a.email
    && (link.user < |s.users| ==> |t.users| == |s.users| && s.users[link.user].kind == Customer)
  }

  /** Identities stay as they are, or a presented identity is newly linked. */
  predicate LinkDid(cfg: Config, s: State, e: Event, t: State) {
    var presented := Presented(cfg, e);
    && |s.users| <= |t.users|
    && (|| (t.idents == s.idents && (presented.Some? ==> |t.users| == |s.users|))
        || (presented.Some? && NewLink(s, presented.value, t)))
  }

  lemma ResolveLinks(s: State, a: Assertion, passwordHash: string)
    ensures var r := Resolve(s, a.provider, a.subject, a.email, passwordHash);
            r.Resolved? ==> (r.state == s || NewLink(s, a, r.state))
  {
  }

  lemma NewLinkAfterIssue(cfg: Config, s: State, a: Assertion, m: State, u: nat, c: nat, scope: string,
                          how: LoginMethod, raw: string, origin: Origin)
    requires u < |m.users| && c < |m.clients| && (m == s || NewLink(s, a, m))
    ensures var t := Issued(cfg, m, u, c, scope, how, raw, origin);
            (t.idents == s.idents && |t.users| == |s.users|) || NewLink(s, a, t)
  {
  }

  lemma FederatedLink(cfg: Config, s: State, e: Event, a: Assertion, clientId: string, scope: string, raw: string,
                      passwordHash: string)
    requires Presented(cfg, e) == Some(a)
    ensures LinkDid(cfg, s, e, FederatedLogin(cfg, s, a.provider, a.subject, a.email, clientId, scope, raw,
        passwordHash).state)
  {
    var out := FederatedLogin(cfg, s, a.provider, a.subject, a.email, clientId, scope, raw, passwordHash);
    var r := Resolve(s, a.provider, a.subject, a.email, passwordHash);
    FederatedOutcome(cfg, s, a.provider, a.subject, a.email, clientId, scope, raw, passwordHash);
    ResolveLinks(s, a, passwordHash);
    if out.reply.Tokens? {
      var c := AuthenticateClient(cfg, s, Creds(clientId, "", "", "")).value;
      NewLinkAfterIssue(cfg, s, a, r.state, r.user, c, scope, HowOf(a.provider), raw, FromLogin(HowOf(a.provider)));
    }
  }

  lemma TokenLink(cfg: Config, s: State, creds: Creds, grant: Grant)
    ensures LinkDid(cfg, s, TokenRequest(creds, grant), Token(cfg, s, creds, grant).state)
  {
    if grant.AuthorizationCode? {
      var client := AuthenticateClient(cfg, s, creds);
      if client.Some? && grant.code != "" && grant.redirectUri != "" {
        CodeOutcome(cfg, s, client.value, grant.code, grant.redirectUri, grant.verifier, grant.raw);
      }
    }
  }

  lemma StepLink(cfg: Config, s: State, e: Event)
    ensures LinkDid(cfg, s, e, Next(cfg, s, e))
  {
    hide Token, FederatedLogin, TelegramWidget.Verdict, AuthenticateClient;
    hide Authorize, KnownPrefix, WidgetPayload;
    match e {
      case AuthorizeRequested(r) => AuthorizeOnlyAddsCodes(cfg, s, r);
      case TokenRequest(creds, grant) => TokenLink(cfg, s, creds, grant);
      case TelegramRequested(r) =>
        FederatedLink(cfg, s, e, Presented(cfg, e).value, r.clientId, r.scope, r.raw, r.passwordHash);
      case GoogleRequested(r) =>
        if r.idToken.Some? {
          FederatedLink(cfg, s, e, Presented(cfg, e).value, r.clientId, r.scope, r.raw, r.passwordHash);
        }
      case _ =>
    }
  }

  // ---------------------------------------------------------------- links are a function, and stable

  predicate LinksOk(s: State) {
    && (forall k | 0 <= k < |s.idents| :: s.idents[k].user < |s.users|)
    && (forall k, l | 0 <= k < l < |s.idents| ::
          s.idents[k].provider != s.idents[l].provider || s.idents[k].subject != s.idents[l].subject)
  }

  lemma LinksOkEvent(cfg: Config, s: State, e: Event, t: State)
    requires LinksOk(s) && LinkDid(cfg, s, e, t)
    ensures LinksOk(t)
  {
    forall k | 0 <= k < |s.idents| ensures t.idents[k] == s.idents[k] {
      assert t.idents[k] == t.idents[..|s.idents|][k];
    }
  }

  lemma LinkedAt(s: State, k: nat)
    requires LinksOk(s) && k < |s.idents|
    ensures FindIdentity(s.idents, s.idents[k].provider, s.idents[k].subject) == Some(k)
  {
  }

  lemma LinkKept(cfg: Config, s: State, e: Event, t: State, provider: Provider, subject: string)
    requires LinksOk(s) && LinkDid(cfg, s, e, t) && LinkOf(s, provider, subject).Some?
    ensures LinkOf(t, provider, subject) == LinkOf(s, provider, subject)
  {
    var k := FindIdentity(s.idents, provider, subject).value;
    assert t.idents[k] == t.idents[..|s.idents|][k];
    LinksOkEvent(cfg, s, e, t);
    LinkedAt(t, k);
  }

  /** Once an identity is linked it stays linked to the same user, in every run. */
  lemma {:induction false} LinkIsStable(cfg: Config, s: State, es: seq<Event>, provider: Provider, subject: string)
    requires LinksOk(s)
    ensures LinksOk(Run(cfg, s, es))
    ensures LinkOf(s, provider, subject).Some?
        ==> LinkOf(Run(cfg, s, es), provider, subject) == LinkOf(s, provider, subject)
    decreases |es|
  {
    if es != [] {
      var m := Next(cfg, s, es[0]);
      StepLink(cfg, s, es[0]);
      LinksOkEvent(cfg, s, es[0], m);
      if LinkOf(s, provider, subject).Some? {
        LinkKept(cfg, s, es[0], m, provider, subject);
      }
      LinkIsStable(cfg, m, es[1..], provider, subject);
    }
  }

  lemma LinkedFederatedLogin(cfg: Config, s: State, provider: Provider, subject: string, email: string,
                             clientId: string, scope: string, raw: string, passwordHash: string)
    requires LinksOk(s) && LinkOf(s, provider, subject).Some?
    ensures var out := FederatedLogin(cfg, s, provider, subject, email, clientId, scope, raw, passwordHash);
            out.reply.Tokens? ==>
              out.reply.access.Access? && out.reply.access.sub == UserSubject(LinkOf(s, provider, subject).value)
  {
    hide AuthenticateClient, UserScope, FindRefresh;
    FederatedOutcome(cfg, s, provider, subject, email, clientId, scope, raw, passwordHash);
  }

  /** However a run continues after an identity has been linked, a login with it that succeeds is a
      login of the linked user, whatever address it presents, and it creates no user and no link. */
  lemma {:induction false} LinkedLoginReachesUser(cfg: Config, s: State, es: seq<Event>, e: Event, provider: Provider,
                                                  subject: string)
    requires LinksOk(s) && LinkOf(s, provider, subject).Some? && Presents(cfg, e, provider, subject)
    ensures var t := Run(cfg, s, es);
            var out := Step(cfg, t, e);
            && (out.reply.Tokens? ==>
                  out.reply.access.Access? && out.reply.access.sub == UserSubject(LinkOf(s, provider, subject).value))
            && |out.state.users| == |t.users| && out.state.idents == t.idents
  {
    var t := Run(cfg, s, es);
    LinkIsStable(cfg, s, es, provider, subject);
    StepLink(cfg, t, e);
    match e {
      case TelegramRequested(r) =>
        LinkedFederatedLogin(cfg, t, Telegram, Decimal(r.id), SyntheticEmail(r.id), r.clientId, r.scope, r.raw,
            r.passwordHash);
      case GoogleRequested(r) =>
        LinkedFederatedLogin(cfg, t, Google, r.idToken.value.0, Normal(cfg.lower, r.idToken.value.1),
                             r.clientId, r.scope, r.raw, r.passwordHash);
    }
  }

  lemma FederatedLoginLinks(cfg: Config, s: State, provider: Provider, subject: string, email: string,
                            clientId: string, scope: string, raw: string, passwordHash: string)
    ensures var out := FederatedLogin(cfg, s, provider, subject, email, clientId, scope, raw, passwordHash);
            out.reply.Tokens? ==>
              && out.reply.access.Access? && LinkOf(out.state, provider, subject).Some?
              && out.reply.access.sub == UserSubject(LinkOf(out.state, provider, subject).value)
  {
    hide AuthenticateClient, UserScope, FindRefresh;
    FederatedOutcome(cfg, s, provider, subject, email, clientId, scope, raw, passwordHash);
    ResolvedIsLinked(s, provider, subject, email, passwordHash);
  }

  lemma ResolvedIsLinked(s: State, provider: Provider, subject: string, email: string, passwordHash: string)
    ensures var r := Resolve(s, provider, subject, email, passwordHash);
            r.Resolved? ==> LinkOf(r.state, provider, subject) == Some(r.user)
  {
    LinkSnoc(s.idents, Identity(|s.users|, provider, subject), provider, subject);
    var u := FindUser(s.users, email);
    if u.Some? {
      LinkSnoc(s.idents, Identity(u.value, provider, subject), provider, subject);
    }
  }

  /** A successful login leaves its identity linked to the user it logged in. */
  lemma LoginLinks(cfg: Config, s: State, e: Event, provider: Provider, subject: string)
    requires Presents(cfg, e, provider, subject)
    ensures var out := Step(cfg, s, e);
            out.reply.Tokens? ==>
              && out.reply.access.Access? && LinkOf(out.state, provider, subject).Some?
              && out.reply.access.sub == UserSubject(LinkOf(out.state, provider, subject).value)
  {
    hide FederatedLogin, TelegramWidget.Verdict, WidgetPayload, LinkOf;
    match e {
      case TelegramRequested(r) =>
        FederatedLoginLinks(cfg, s, Telegram, Decimal(r.id), SyntheticEmail(r.id), r.clientId, r.scope, r.raw,
            r.passwordHash);
      case GoogleRequested(r) =>
        FederatedLoginLinks(cfg, s, Google, r.idToken.value.0, Normal(cfg.lower, r.idToken.value.1),
                            r.clientId, r.scope, r.raw, r.passwordHash);
    }
  }

  /** Any two successful logins with one identity, however far apart in a run, are logins of the same user. */
  lemma {:induction false} TwoLoginsOneUser(cfg: Config, s: State, one: Event, es: seq<Event>, two: Event,
                                            provider: Provider, subject: string)
    requires LinksOk(s) && Presents(cfg, one, provider, subject) && Presents(cfg, two, provider, subject)
    ensures var first, t := Step(cfg, s, one), Run(cfg, Next(cfg, s, one), es);
            var second := Step(cfg, t, two);
            first.reply.Tokens? && second.reply.Tokens? ==>
              && first.reply.access.Access? && second.reply.access.Access?
              && first.reply.access.sub == second.reply.access.sub
  {
    var m := Next(cfg, s, one);
    StepLink(cfg, s, one);
    LinksOkEvent(cfg, s, one, m);
    LoginLinks(cfg, s, one, provider, subject);
    if LinkOf(m, provider, subject).Some? {
      LinkedLoginReachesUser(cfg, m, es, two, provider, subject);
    }
    hide Step, LinksOk, LinkOf, Presents;
  }

  /** How many users the logins with one identity create over a run. */
  function UsersCreated(cfg: Config, s: State, es: seq<Event>, provider: Provider, subject: string): int
    decreases |es|
  {
    if es == [] then 0 else
      (if Presents(cfg, es[0], provider, subject) then |Next(cfg, s, es[0]).users| - |s.users| else 0)
        + UsersCreated(cfg, Next(cfg, s, es[0]), es[1..], provider, subject)
  }

  lemma CreationLinks(cfg: Config, s: State, e: Event, t: State, provider: Provider, subject: string)
    requires LinksOk(s) && LinkDid(cfg, s, e, t) && Presents(cfg, e, provider, subject)
    ensures |s.users| <= |t.users| <= |s.users| + 1
    ensures |t.users| > |s.users| ==>
              LinkOf(s, provider, subject).None? && LinkOf(t, provider, subject) == Some(|s.users|)
  {
    LinksOkEvent(cfg, s, e, t);
    if |t.users| > |s.users| {
      LinkedAt(t, |s.idents|);
    }
  }

  /** Any number of logins with one identity creates at most one user, and none once it is linked. */
  lemma {:induction false} AtMostOneUserCreated(cfg: Config, s: State, es: seq<Event>, provider: Provider,
                                                subject: string)
    requires LinksOk(s)
    ensures 0 <= UsersCreated(cfg, s, es, provider, subject) <= 1
    ensures LinkOf(s, provider, subject).Some? ==> UsersCreated(cfg, s, es, provider, subject) == 0
    decreases |es|
  {
    if es != [] {
      var m := Next(cfg, s, es[0]);
      StepLink(cfg, s, es[0]);
      LinksOkEvent(cfg, s, es[0], m);
      if LinkOf(s, provider, subject).Some? {
        LinkKept(cfg, s, es[0], m, provider, subject);
      }
      if Presents(cfg, es[0], provider, subject) {
        CreationLinks(cfg, s, es[0], m, provider, subject);
      }
      AtMostOneUserCreated(cfg, m, es[1..], provider, subject);
    }
  }

  predicate LinkedCustomer(s: State, t: State, k: nat)
    requires k < |t.idents|
  {
    var u := t.idents[k].user;
    u < |t.users| && t.users[u].kind == Customer && (u < |s.users| ==> s.users[u].kind == Customer)
  }

  lemma NewLinkIsCustomer(cfg: Config, s: State, e: Event, t: State, k: nat)
    requires LinkDid(cfg, s, e, t) && |s.idents| <= k < |t.idents|
    ensures LinkedCustomer(s, t, k)
  {
    assert k == |s.idents|;
  }

  /** A link is only ever made to a user who is a customer at that moment, and to one who was a customer
      before if the user is not new. */
  lemma LinksOnlyCustomers(cfg: Config, s: State, e: Event, k: nat)
    requires |s.idents| <= k
    ensures var t := Next(cfg, s, e); k < |t.idents| ==> LinkedCustomer(s, t, k)
  {
    var t := Next(cfg, s, e);
    StepLink(cfg, s, e);
    hide Step, LinkDid, LinkedCustomer;
    if k < |t.idents| {
      NewLinkIsCustomer(cfg, s, e, t, k);
    }
  }

  // ---------------------------------------------------------------- distinct Telegram ids, distinct users

  /** User `u` has a Telegram account. */
  predicate HasTelegram(s: State, u: nat) {
    exists k :: 0 <= k < |s.idents| && s.idents[k].provider == Telegram && s.idents[k].user == u
  }

  /** The address is the one made up for a Telegram account that is not linked yet. */
  ghost predicate UnlinkedAddress(s: State, email: string) {
    exists b: int :: email == SyntheticEmail(b) && LinkOf(s, Telegram, Decimal(b)).None?
  }

  /** Telegram accounts have distinct users, and none of these users has the address of an account that is
      not linked yet. */
  ghost predicate Apart(s: State) {
    && (forall k, l | 0 <= k < l < |s.idents| && s.idents[k].provider == Telegram == s.idents[l].provider ::
          s.idents[k].user != s.idents[l].user)
    && (forall u | 0 <= u < |s.users| && HasTelegram(s, u) :: !UnlinkedAddress(s, s.users[u].email))
  }

  /** An administrator gives a user with a Telegram account the free address made up for another account,
      one that is not linked yet. */
  ghost predicate MergingEdit(cfg: Config, s: State, e: Event) {
    && ChangesEmail(cfg, s, e) && HasTelegram(s, e.user)
    && UnlinkedAddress(s, Normal(cfg.lower, e.userPatch.email.value))
  }

  lemma SameIdentsSameAddresses(s: State, t: State, email: string)
    requires t.idents == s.idents
    ensures UnlinkedAddress(t, email) <==> UnlinkedAddress(s, email)
  {
    if UnlinkedAddress(t, email) {
      var b: int :| email == SyntheticEmail(b) && LinkOf(t, Telegram, Decimal(b)).None?;
      assert LinkOf(s, Telegram, Decimal(b)).None?;
    }
    if UnlinkedAddress(s, email) {
      var b: int :| email == SyntheticEmail(b) && LinkOf(s, Telegram, Decimal(b)).None?;
      assert LinkOf(t, Telegram, Decimal(b)).None?;
    }
  }

  /** An address that is unlinked now was unlinked before. */
  lemma UnlinkedBefore(cfg: Config, s: State, e: Event, t: State, email: string)
    requires LinksOk(s) && LinkDid(cfg, s, e, t) && UnlinkedAddress(t, email)
    ensures UnlinkedAddress(s, email)
  {
    var b: int :| email == SyntheticEmail(b) && LinkOf(t, Telegram, Decimal(b)).None?;
    if LinkOf(s, Telegram, Decimal(b)).Some? {
      LinkKept(cfg, s, e, t, Telegram, Decimal(b));
    }
  }

  lemma SyntheticInjective(a: int, b: int)
    requires SyntheticEmail(a) == SyntheticEmail(b)
    ensures a == b
  {
    TelegramEmailInjective(Decimal(a), Decimal(b));
    DecimalInjective(a, b);
  }

  /** What an event other than a patch of an address leaves of the old users' addresses. */
  lemma OldEmails(cfg: Config, s: State, t: State, emails: EmailEffect, u: nat)
    requires EmailDid(cfg, s, t, emails) && !emails.Changed? && u < |s.users|
    ensures u < |t.users| && t.users[u].email == s.users[u].email
  {
    if emails.Added? {
      assert t.users[u] == t.users[..|s.users|][u];
    }
  }

  /** With a patch of an address, users stay apart exactly if it is no merging edit. */
  lemma ApartAfterPatch(cfg: Config, s: State, e: Event, t: State, emails: EmailEffect)
    requires LinksOk(s) && Apart(s) && LinkDid(cfg, s, e, t) && EmailDid(cfg, s, t, emails)
        && PatchedEmail(cfg, s, e, emails)
    requires emails.Changed?
    ensures Apart(t) <==> !MergingEdit(cfg, s, e)
  {
    hide UnlinkedAddress, LinksOk, Normal;
    assert t.idents == s.idents;
    assert forall u | 0 <= u < |s.users| :: HasTelegram(t, u) <==> HasTelegram(s, u);
    forall email ensures UnlinkedAddress(t, email) <==> UnlinkedAddress(s, email) {
      SameIdentsSameAddresses(s, t, email);
    }
  }

  /** Without one, users stay apart. */
  lemma ApartOtherwise(cfg: Config, s: State, e: Event, t: State, emails: EmailEffect)
    requires LinksOk(s) && Apart(s) && LinkDid(cfg, s, e, t) && EmailDid(cfg, s, t, emails) && !emails.Changed?
    ensures Apart(t)
  {
    LinksOkEvent(cfg, s, e, t);
    if t.idents == s.idents {
      forall u | 0 <= u < |t.users| && HasTelegram(t, u) ensures !UnlinkedAddress(t, t.users[u].email) {
        assert HasTelegram(s, u);
        OldEmails(cfg, s, t, emails, u);
        SameIdentsSameAddresses(s, t, t.users[u].email);
      }
    } else {
      LinkedApart(cfg, s, e, t, emails);
    }
  }

  lemma OldLinks(s: State, t: State, k: nat)
    requires |t.idents| == |s.idents| + 1 && t.idents[..|s.idents|] == s.idents && k < |s.idents|
    ensures t.idents[k] == s.idents[k]
  {
    assert t.idents[k] == t.idents[..|s.idents|][k];
  }

  /** The user of a new Telegram link had no Telegram account. */
  lemma NewLinkIsFirst(cfg: Config, s: State, e: Event, t: State, emails: EmailEffect)
    requires LinksOk(s) && Apart(s) && LinkDid(cfg, s, e, t) && EmailDid(cfg, s, t, emails) && !emails.Changed?
    requires t.idents != s.idents && t.idents[|s.idents|].provider == Telegram
    ensures !HasTelegram(s, t.idents[|s.idents|].user) && e.TelegramRequested?
  {
    var u := t.idents[|s.idents|].user;
    AddressIsUnlinked(s, e.telegram.id);
    if u < |s.users| {
      OldEmails(cfg, s, t, emails, u);
    }
    hide UnlinkedAddress, TelegramEmail;
  }

  lemma AddressIsUnlinked(s: State, b: int)
    requires LinkOf(s, Telegram, Decimal(b)).None?
    ensures UnlinkedAddress(s, SyntheticEmail(b))
  {
  }

  lemma LinkedApart(cfg: Config, s: State, e: Event, t: State, emails: EmailEffect)
    requires LinksOk(s) && Apart(s) && LinkDid(cfg, s, e, t) && EmailDid(cfg, s, t, emails) && !emails.Changed?
    requires t.idents != s.idents
    ensures Apart(t)
  {
    var n := |s.idents|;
    var newest := t.idents[n];
    forall k | 0 <= k < n ensures t.idents[k] == s.idents[k] {
      OldLinks(s, t, k);
    }
    if newest.provider == Telegram {
      NewLinkIsFirst(cfg, s, e, t, emails);
    }
    forall u | 0 <= u < |t.users| && HasTelegram(t, u) ensures !UnlinkedAddress(t, t.users[u].email) {
      if UnlinkedAddress(t, t.users[u].email) {
        UnlinkedBefore(cfg, s, e, t, t.users[u].email);
        if HasTelegram(s, u) {
          OldEmails(cfg, s, t, emails, u);
        } else {
          NewestIsLinked(cfg, s, e, t, u);
        }
      }
    }
  }

  /** The address that comes with a new Telegram link is linked from then on. */
  lemma NewestIsLinked(cfg: Config, s: State, e: Event, t: State, u: nat)
    requires LinksOk(s) && LinkDid(cfg, s, e, t) && t.idents != s.idents
    requires u < |t.users| && HasTelegram(t, u) && !HasTelegram(s, u)
    ensures !UnlinkedAddress(t, t.users[u].email)
  {
    var n := |s.idents|;
    var k :| 0 <= k < |t.idents| && t.idents[k].provider == Telegram && t.idents[k].user == u;
    if k < n {
      OldLinks(s, t, k);
    }
    assert k == n && e.TelegramRequested?;
    LinksOkEvent(cfg, s, e, t);
    LinkedAt(t, n);
    forall b: int | t.users[u].email == SyntheticEmail(b) ensures LinkOf(t, Telegram, Decimal(b)).Some? {
      SyntheticInjective(b, e.telegram.id);
    }
  }

  /** The exact condition for one event: users with Telegram accounts stay apart unless it is a merging edit. */
  lemma ApartStepExactly(cfg: Config, s: State, e: Event)
    requires CaseTableOk(cfg.lower) && LinksOk(s) && Apart(s)
    ensures Apart(Next(cfg, s, e)) <==> !MergingEdit(cfg, s, e)
  {
    var t := Next(cfg, s, e);
    StepLink(cfg, s, e);
    var emails := StepEmails(cfg, s, e);
    hide Step, Apart, LinkDid, EmailDid, LinksOk, HasTelegram, UnlinkedAddress;
    if emails.Changed? {
      ApartAfterPatch(cfg, s, e, t, emails);
    } else {
      ApartOtherwise(cfg, s, e, t, emails);
    }
  }

  /** No step of the run is a merging edit. */
  ghost predicate NoMergingEdit(cfg: Config, s: State, es: seq<Event>)
    decreases |es|
  {
    es == [] || (!MergingEdit(cfg, s, es[0]) && NoMergingEdit(cfg, Next(cfg, s, es[0]), es[1..]))
  }

  lemma {:induction false} ApartRun(cfg: Config, s: State, es: seq<Event>)
    requires CaseTableOk(cfg.lower) && LinksOk(s) && Apart(s) && NoMergingEdit(cfg, s, es)
    ensures LinksOk(Run(cfg, s, es)) && Apart(Run(cfg, s, es))
    decreases |es|
  {
    hide Step, Apart, MergingEdit, LinksOk, LinkDid;
    if es != [] {
      var m := Next(cfg, s, es[0]);
      StepLink(cfg, s, es[0]);
      LinksOkEvent(cfg, s, es[0], m);
      ApartStepExactly(cfg, s, es[0]);
      ApartRun(cfg, m, es[1..]);
    }
  }

  /** In a run from an empty database without merging edits, different Telegram accounts are linked to
      different users, whatever other addresses administrators edit. */
  lemma {:induction false} DistinctTelegramUsers(cfg: Config, es: seq<Event>, a: int, b: int)
    requires CaseTableOk(cfg.lower) && NoMergingEdit(cfg, EMPTY, es)
    ensures var t := Run(cfg, EMPTY, es);
            var x, y := LinkOf(t, Telegram, Decimal(a)), LinkOf(t, Telegram, Decimal(b));
            x.Some? && x == y ==> a == b
  {
    hide Step, NoMergingEdit;
    var t := Run(cfg, EMPTY, es);
    var x, y := LinkOf(t, Telegram, Decimal(a)), LinkOf(t, Telegram, Decimal(b));
    ApartRun(cfg, EMPTY, es);
    if x.Some? && x == y {
      assert FindIdentity(t.idents, Telegram, Decimal(a)) == FindIdentity(t.idents, Telegram, Decimal(b));
      DecimalInjective(a, b);
    }
  }

  /** Another identity `(p, y)` is linked to user `u`, whose address is the one made up for account `b`,
      which is not linked. */
  predicate AboutToMerge(cfg: Config, s: State, u: nat, p: Provider, y: string, b: int) {
    && LinksOk(s) && EmailsOk(cfg, s) && LinkOf(s, p, y) == Some(u) && LinkOf(s, Telegram, Decimal(b)).None?
    && u < |s.users| && s.users[u].email == SyntheticEmail(b)
  }

  /** The event neither changes the address of user `u` nor logs Telegram account `b` in. */
  predicate LeavesAlone(e: Event, u: nat, b: int) {
    && !(e.UserPatched? && e.user == u && e.userPatch.email.Some?)
    && !(e.TelegramRequested? && e.telegram.id == b)
  }

  lemma AboutToMergeStep(cfg: Config, s: State, e: Event, u: nat, p: Provider, y: string, b: int)
    requires CaseTableOk(cfg.lower) && AboutToMerge(cfg, s, u, p, y, b) && LeavesAlone(e, u, b)
    ensures AboutToMerge(cfg, Next(cfg, s, e), u, p, y, b)
  {
    var t := Next(cfg, s, e);
    StepLink(cfg, s, e);
    var emails := StepEmails(cfg, s, e);
    hide Step, Normal, TelegramEmail;
    LinksOkEvent(cfg, s, e, t);
    EmailsOkEffect(cfg, s, t, emails);
    LinkKept(cfg, s, e, t, p, y);
    if !emails.Changed? {
      OldEmails(cfg, s, t, emails, u);
    }
    StillUnlinked(cfg, s, e, t, b);
  }

  lemma StillUnlinked(cfg: Config, s: State, e: Event, t: State, b: int)
    requires LinkDid(cfg, s, e, t) && LinkOf(s, Telegram, Decimal(b)).None?
    requires !(e.TelegramRequested? && e.telegram.id == b)
    ensures LinkOf(t, Telegram, Decimal(b)).None?
  {
    if t.idents != s.idents {
      var n := |s.idents|;
      assert t.idents == s.idents + [t.idents[n]];
      LinkSnoc(s.idents, t.idents[n], Telegram, Decimal(b));
      if e.TelegramRequested? && Decimal(e.telegram.id) == Decimal(b) {
        DecimalInjective(e.telegram.id, b);
      }
    }
  }

  lemma {:induction false} AboutToMergeRun(cfg: Config, s: State, es: seq<Event>, u: nat, p: Provider, y: string,
                                           b: int)
    requires CaseTableOk(cfg.lower) && AboutToMerge(cfg, s, u, p, y, b) && forall i | 0 <= i < |es|
        :: LeavesAlone(es[i], u, b)
    ensures AboutToMerge(cfg, Run(cfg, s, es), u, p, y, b)
    decreases |es|
  {
    hide Step, AboutToMerge;
    if es != [] {
      AboutToMergeStep(cfg, s, es[0], u, p, y, b);
      AboutToMergeRun(cfg, Next(cfg, s, es[0]), es[1..], u, p, y, b);
    }
  }

  lemma MergedTables(cfg: Config, s: State, r: TelegramRequest, t: State, emails: EmailEffect, u: nat, p: Provider,
                     y: string)
    requires AboutToMerge(cfg, s, u, p, y, r.id) && LinkOf(t, Telegram, Decimal(r.id)).Some?
    requires LinkDid(cfg, s, TelegramRequested(r), t) && EmailDid(cfg, s, t, emails) && !emails.Changed?
    ensures LinkOf(t, p, y) == LinkOf(t, Telegram, Decimal(r.id)) == Some(u)
  {
    hide Normal, TelegramEmail;
    var e := TelegramRequested(r);
    EmailsOkEffect(cfg, s, t, emails);
    LinksOkEvent(cfg, s, e, t);
    LinkKept(cfg, s, e, t, p, y);
    OldEmails(cfg, s, t, emails, u);
    assert t.idents != s.idents;
    LinkedAt(t, |s.idents|);
    var v := t.idents[|s.idents|].user;
    assert t.users[v].email == t.users[u].email;
  }

  lemma MergingLogin(cfg: Config, s: State, r: TelegramRequest, u: nat, p: Provider, y: string)
    requires CaseTableOk(cfg.lower) && AboutToMerge(cfg, s, u, p, y, r.id)
    ensures var out := Step(cfg, s, TelegramRequested(r));
            && (out.reply.Tokens? ==> LinkOf(out.state, Telegram, Decimal(r.id)).Some?)
            && (LinkOf(out.state, Telegram, Decimal(r.id)).Some? ==>
                  LinkOf(out.state, p, y) == LinkOf(out.state, Telegram, Decimal(r.id)) == Some(u))
  {
    var e := TelegramRequested(r);
    StepLink(cfg, s, e);
    var emails := StepEmails(cfg, s, e);
    LoginLinks(cfg, s, e, Telegram, Decimal(r.id));
    hide Step, LinkOf, AboutToMerge, LinkDid, EmailDid;
    if LinkOf(Next(cfg, s, e), Telegram, Decimal(r.id)).Some? {
      MergedTables(cfg, s, r, Next(cfg, s, e), emails, u, p, y);
    }
  }

  /** The condition is needed: after a merging edit, and whatever else happens as long as the address
      stays and account `b` does not log in, the first login of `b` that links it, whether tokens are issued
      then or refused, links it to the user of the other identity, which may be a Telegram account. */
  lemma {:induction false} MergingEditMerges(cfg: Config, s: State, e: Event, p: Provider, y: string, b: int,
                                             es: seq<Event>, r: TelegramRequest)
    requires CaseTableOk(cfg.lower) && LinksOk(s) && EmailsOk(cfg, s)
    requires ChangesEmail(cfg, s, e) && LinkOf(s, p, y) == Some(e.user)
    requires Normal(cfg.lower, e.userPatch.email.value) == SyntheticEmail(b) && LinkOf(s, Telegram, Decimal(b)).None?
    requires (forall i | 0 <= i < |es| :: LeavesAlone(es[i], e.user, b)) && r.id == b
    ensures var t := Run(cfg, Next(cfg, s, e), es);
            var out := Step(cfg, t, TelegramRequested(r));
            && (p == Telegram ==> y != Decimal(b))
            && (out.reply.Tokens? ==> LinkOf(out.state, Telegram, Decimal(b)).Some?)
            && (LinkOf(out.state, Telegram, Decimal(b)).Some? ==>
                  LinkOf(out.state, p, y) == LinkOf(out.state, Telegram, Decimal(b)) == Some(e.user))
  {
    var m := Next(cfg, s, e);
    StepLink(cfg, s, e);
    var emails := StepEmails(cfg, s, e);
    hide Step, Normal, TelegramEmail;
    LinksOkEvent(cfg, s, e, m);
    EmailsOkEffect(cfg, s, m, emails);
    LinkKept(cfg, s, e, m, p, y);
    StillUnlinked(cfg, s, e, m, b);
    AboutToMergeRun(cfg, m, es, e.user, p, y, b);
    MergingLogin(cfg, Run(cfg, m, es), r, e.user, p, y);
  }

  lemma TelegramEmailInjective(x: string, y: string)
    requires TelegramEmail(x) == TelegramEmail(y)
    ensures x == y
  {
    assert |x| == |y|;
    assert x == TelegramEmail(x)[3..3 + |x|] && y == TelegramEmail(y)[3..3 + |y|];
  }

  lemma LinkSnoc(idents: seq<Identity>, link: Identity, provider: Provider, subject: string)
    ensures FindIdentity(idents + [link], provider, subject)
         == if link.provider == provider && link.subject == subject then Some(|idents|)
             else FindIdentity(idents, provider, subject)
  {
    assert (idents + [link])[..|idents|] == idents;
  }

  /** A public client and a newly drawn refresh token: the login is not refused for its client. */
  predicate PublicLogin(cfg: Config, s: State, clientId: string, raw: string) {
    && FindRefresh(s.refresh, cfg.sha(raw)).None?
    && var client := AuthenticateClient(cfg, s, Creds(clientId, "", "", ""));
    && client.Some? && s.clients[client.value].isPublic
  }

  lemma LinksByEmail(cfg: Config, s: State, a: Assertion, u: nat, clientId: string, scope: string, raw: string,
                     passwordHash: string)
    requires PublicLogin(cfg, s, clientId, raw)
    requires LinkOf(s, a.provider, a.subject).None?
    requires FindUser(s.users, a.email) == Some(u) && s.users[u].kind == Customer
    ensures FederatedLogin(cfg, s, a.provider, a.subject, a.email, clientId, scope, raw, passwordHash).state.idents
         == s.idents + [Identity(u, a.provider, a.subject)]
  {
  }

  lemma EditedEmail(cfg: Config, s: State, u: nat, e: string)
    requires u < |s.users| && Normal(cfg.lower, e) == e
    requires forall v | 0 <= v < |s.users| :: s.users[v].email != e
    ensures var m := PatchUser(cfg, s, u, UserPatch(Some(e), None, None, None)).state;
            m == s.(users := s.users[u := s.users[u].(email := e)]) && FindUser(m.users, e) == Some(u)
  {
    var m := PatchUser(cfg, s, u, UserPatch(Some(e), None, None, None)).state;
    assert FindUser(s.users, e).None?;
    assert m.users[u].email == e;
    assert FindUser(m.users, e).Some?;
  }

  /** The same for identities of any provider and bare requests: when an administrator gives the user of one linked
      identity `x` the address that another identity presents, the next verified login of that other
      identity is linked to the same user. */
  lemma EmailEditMergesAccounts(cfg: Config, s: State, u: nat, x: Assertion, y: Assertion,
                                clientId: string, scope: string, raw: string, passwordHash: string)
    requires PublicLogin(cfg, s, clientId, raw)
    requires u < |s.users| && s.users[u].kind == Customer
    requires LinkOf(s, x.provider, x.subject) == Some(u) && LinkOf(s, y.provider, y.subject).None?
    requires FreeEmail(cfg, s, y.email)
    ensures var m := PatchUser(cfg, s, u, UserPatch(Some(y.email), None, None, None)).state;
            var t := FederatedLogin(cfg, m, y.provider, y.subject, y.email, clientId, scope, raw, passwordHash).state;
            LinkOf(t, x.provider, x.subject) == LinkOf(t, y.provider, y.subject) == Some(u)
  {
    EditedEmail(cfg, s, u, y.email);
    var m := PatchUser(cfg, s, u, UserPatch(Some(y.email), None, None, None)).state;
    LinksByEmail(cfg, m, y, u, clientId, scope, raw, passwordHash);
    var link := Identity(u, y.provider, y.subject);
    LinkSnoc(s.idents, link, x.provider, x.subject);
    LinkSnoc(s.idents, link, y.provider, y.subject);
  }
}
