/** What a federated login comes to, row by row, for every verified assertion: who is logged in, and what
    account a first login creates. */
module FederatedLogins {
  import opened Text
  import opened Scopes
  import opened Store
  import opened Steps
  import opened Machine
  import opened Emails
  import opened Federation
  import opened Clients
  import opened Answers
  import TelegramIds
  import TelegramWidget

  /** What a login request asks for, whichever provider vouches for it. */
  datatype Login = Login(identity: Assertion, clientId: string, scope: string, raw: string, passwordHash: string)

  function TelegramIdentity(id: int): Assertion {
    Assertion(Telegram, Decimal(id), "tg." + Decimal(id) + "@telegram.federated.zhuchka")
  }

  /** The login a request amounts to if its provider vouches for it: a Telegram payload with a good signature,
      or a Google token with a subject and an address. */
  function VerifiedLogin(cfg: Config, s: State, e: Event): Option<Login> {
    match e
    case TelegramRequested(r) =>
      if cfg.botToken != "" && TelegramIds.Accepted(cfg, s.now, r)
      then Some(Login(TelegramIdentity(r.id), r.clientId, r.scope, r.raw, r.passwordHash)) else None
    case GoogleRequested(r) =>
      if cfg.googleEnabled && r.idToken.Some? && r.idToken.value.0 != ""
          && Lower(cfg.lower, Strip(r.idToken.value.1)) != ""
      then Some(Login(Assertion(Google, r.idToken.value.0, Lower(cfg.lower, Strip(r.idToken.value.1))),
                      r.clientId, r.scope, r.raw, r.passwordHash)) else None
    case _ => None
  }

  predicate PublicClient(s: State, clientId: string, c: nat) {
    clientId != "" && c < |s.clients| && s.clients[c].clientId == clientId && s.clients[c].isPublic
  }

  predicate Unlinked(s: State, a: Assertion) {
    forall k | 0 <= k < |s.idents| :: s.idents[k].provider != a.provider || s.idents[k].subject != a.subject
  }

  predicate LinkedTo(s: State, a: Assertion, u: nat) { Identity(u, a.provider, a.subject) in s.idents }

  /** The identity is that of user `u`: the linked one, or else the one with its address. */
  predicate Owns(s: State, a: Assertion, u: nat) {
    u < |s.users| && (LinkedTo(s, a, u) || (Unlinked(s, a) && s.users[u].email == a.email))
  }

  predicate Nobodys(s: State, a: Assertion) {
    Unlinked(s, a) && forall u | 0 <= u < |s.users| :: s.users[u].email != a.email
  }

  function WithLink(s: State, a: Assertion, u: nat): State {
    if LinkedTo(s, a, u) then s else s.(idents := s.idents + [Identity(u, a.provider, a.subject)])
  }

  function How(a: Assertion): LoginMethod { if a.provider == Telegram then ByTelegram else ByGoogle }

  predicate LoggedIn(cfg: Config, m: State, out: Outcome, c: nat, u: nat, login: Login)
    requires c < |m.clients| && u < |m.users|
  {
    Started(cfg, m, out, c, u, login.scope, login.raw, How(login.identity), FromLogin(How(login.identity)))
  }

  /** The login of a user the server knows. Staff are refused; a customer is linked, and stays linked when the
      account is inactive or locked and the login refused for that. */
  predicate KnownAnswer(cfg: Config, s: State, out: Outcome, login: Login, c: nat, u: nat)
    requires c < |s.clients| && u < |s.users|
  {
    var user, m := s.users[u], WithLink(s, login.identity, u);
    if user.kind == Staff then out == Outcome(s, Refused(StaffDenied))
    else if !user.active then out == Outcome(m, Refused(InvalidGrant))
    else if LockedNow(user, s.now) then out == Outcome(m, Refused(AccessDenied))
    else if Fresh(cfg, s, login.raw) then LoggedIn(cfg, m, out, c, u, login)
    else out == Outcome(s, Refused(ServerError))
  }

  /** The first login of somebody unknown creates an account: an active, unlocked customer without failures and
      roles, of the presented address, linked to the identity, and logged in at once. */
  predicate NewcomerAnswer(cfg: Config, s: State, out: Outcome, login: Login, c: nat)
    requires c < |s.clients|
  {
    var a, n := login.identity, |s.users|;
    var m := s.(users := s.users + [User(a.email, Customer, login.passwordHash, true, None, 0, {})],
                idents := s.idents + [Identity(n, a.provider, a.subject)]);
    if Fresh(cfg, s, login.raw) then LoggedIn(cfg, m, out, c, n, login) else out == Outcome(s, Refused(ServerError))
  }

  function SharedLogin(cfg: Config, s: State, login: Login): Outcome {
    FederatedLogin(cfg, s, login.identity.provider, login.identity.subject, login.identity.email, login.clientId,
                   login.scope, login.raw, login.passwordHash)
  }

  lemma VerifiedStep(cfg: Config, s: State, e: Event)
    ensures var login := VerifiedLogin(cfg, s, e); login.Some? ==> Step(cfg, s, e) == SharedLogin(cfg, s, login.value)
  {
    hide FederatedLogin, WidgetPayload, Decimal, Strip, Lower, TelegramWidget.Verdict;
  }

  lemma PublicClientFound(cfg: Config, s: State, clientId: string, c: nat)
    requires DistinctIds(s.clients)
    ensures PublicClient(s, clientId, c) ==> AuthenticateClient(cfg, s, Creds(clientId, "", "", "")) == Some(c)
  {
    AuthenticatedExactly(cfg, s, Creds(clientId, "", "", ""), c);
    hide AuthenticateClient, DistinctIds;
  }

  lemma OwnerResolves(cfg: Config, s: State, a: Assertion, u: nat, passwordHash: string)
    requires EmailsOk(cfg, s) && LinksOk(s) && Owns(s, a, u)
    ensures Resolve(s, a.provider, a.subject, a.email, passwordHash)
         == if s.users[u].kind == Staff then Denied(StaffDenied) else Resolved(WithLink(s, a, u), u)
  {
    if LinkedTo(s, a, u) {
      var k :| 0 <= k < |s.idents| && s.idents[k] == Identity(u, a.provider, a.subject);
      LinkedAt(s, k);
    }
    var found := FindUser(s.users, a.email);
    hide FindIdentity, FindUser, Normal;
  }

  lemma NewcomerResolves(s: State, a: Assertion, passwordHash: string)
    requires Nobodys(s, a)
    ensures var n := |s.users|;
            Resolve(s, a.provider, a.subject, a.email, passwordHash)
            == Resolved(s.(users := s.users + [User(a.email, Customer, passwordHash, true, None, 0, {})],
                           idents := s.idents + [Identity(n, a.provider, a.subject)]), n)
  {
    hide FindIdentity, FindUser;
  }

  /** The issue for a resolved user. */
  lemma ResolvedAnswers(cfg: Config, s: State, login: Login, c: nat, m: State, u: nat)
    requires c < |s.clients| && AuthenticateClient(cfg, s, Creds(login.clientId, "", "", "")) == Some(c)
    requires s.clients[c].isPublic && m.clients == s.clients && m.now == s.now && m.refresh == s.refresh
    requires Resolve(s, login.identity.provider, login.identity.subject, login.identity.email, login.passwordHash)
             == Resolved(m, u)
    ensures u < |m.users|
    ensures var out, user := SharedLogin(cfg, s, login), m.users[u];
            if !user.active then out == Outcome(m, Refused(InvalidGrant))
            else if LockedNow(user, s.now) then out == Outcome(m, Refused(AccessDenied))
            else if Fresh(cfg, s, login.raw) then LoggedIn(cfg, m, out, c, u, login)
            else out == Outcome(s, Refused(ServerError))
  {
    FreshExactly(cfg, s, login.raw);
    hide AuthenticateClient, Fresh, FindRefresh, UserScope, Resolve;
  }

  /** A verified login through a known public client, of the user the identity belongs to. */
  lemma LoginOfKnown(cfg: Config, s: State, e: Event, c: nat, u: nat)
    requires EmailsOk(cfg, s) && LinksOk(s) && DistinctIds(s.clients)
    ensures var login := VerifiedLogin(cfg, s, e);
            c < |s.clients| && u < |s.users| && login.Some? && PublicClient(s, login.value.clientId, c)
            && Owns(s, login.value.identity, u) ==>
              KnownAnswer(cfg, s, Step(cfg, s, e), login.value, c, u)
  {
    VerifiedStep(cfg, s, e);
    var verified := VerifiedLogin(cfg, s, e);
    hide Step, VerifiedLogin, EmailsOk, LinksOk, DistinctIds, Owns;
    if verified.Some? && PublicClient(s, verified.value.clientId, c) && Owns(s, verified.value.identity, u) {
      var login := verified.value;
      PublicClientFound(cfg, s, login.clientId, c);
      OwnerResolves(cfg, s, login.identity, u, login.passwordHash);
      OwnerIsUser(s, login.identity, u);
      if s.users[u].kind != Staff {
        ResolvedAnswers(cfg, s, login, c, WithLink(s, login.identity, u), u);
      } else {
        StaffDeniedHere(cfg, s, login, c);
      }
      hide SharedLogin, AuthenticateClient, Resolve, LoggedIn, Fresh, LinkedTo;
    }
  }

  lemma OwnerIsUser(s: State, a: Assertion, u: nat)
    ensures Owns(s, a, u) ==> u < |s.users|
  {
  }

  lemma StaffDeniedHere(cfg: Config, s: State, login: Login, c: nat)
    requires c < |s.clients| && AuthenticateClient(cfg, s, Creds(login.clientId, "", "", "")) == Some(c)
    requires s.clients[c].isPublic
    requires Resolve(s, login.identity.provider, login.identity.subject, login.identity.email, login.passwordHash)
             == Denied(StaffDenied)
    ensures SharedLogin(cfg, s, login) == Outcome(s, Refused(StaffDenied))
  {
    hide AuthenticateClient, Resolve;
  }

  /** A verified login through a known public client, of somebody the server does not know. */
  lemma LoginOfNewcomer(cfg: Config, s: State, e: Event, c: nat)
    requires DistinctIds(s.clients)
    ensures var login := VerifiedLogin(cfg, s, e);
            c < |s.clients| && login.Some? && PublicClient(s, login.value.clientId, c)
            && Nobodys(s, login.value.identity) ==>
              NewcomerAnswer(cfg, s, Step(cfg, s, e), login.value, c)
  {
    VerifiedStep(cfg, s, e);
    var verified := VerifiedLogin(cfg, s, e);
    hide Step, VerifiedLogin, DistinctIds, Nobodys;
    if verified.Some? && PublicClient(s, verified.value.clientId, c) && Nobodys(s, verified.value.identity) {
      var login := verified.value;
      var a, n := login.identity, |s.users|;
      PublicClientFound(cfg, s, login.clientId, c);
      NewcomerResolves(s, a, login.passwordHash);
      var m := s.(users := s.users + [User(a.email, Customer, login.passwordHash, true, None, 0, {})],
                  idents := s.idents + [Identity(n, a.provider, a.subject)]);
      ResolvedAnswers(cfg, s, login, c, m, n);
      hide SharedLogin, AuthenticateClient, Resolve, LoggedIn, Fresh;
    }
  }

  /** Every identity is somebody's or nobody's. */
  lemma OwnerOrNobody(cfg: Config, s: State, a: Assertion) returns (u: nat)
    requires LinksOk(s)
    ensures Owns(s, a, u) || Nobodys(s, a)
  {
    u := 0;
    if !Unlinked(s, a) {
      var k :| 0 <= k < |s.idents| && s.idents[k].provider == a.provider && s.idents[k].subject == a.subject;
      u := s.idents[k].user;
      assert s.idents[k] == Identity(u, a.provider, a.subject);
    } else if !Nobodys(s, a) {
      u :| 0 <= u < |s.users| && s.users[u].email == a.email;
    }
  }

  /** An active, unlocked customer owns the identity. */
  predicate Welcome(s: State, a: Assertion, u: nat) {
    Owns(s, a, u) && s.users[u].kind == Customer && s.users[u].active && !LockedNow(s.users[u], s.now)
  }

  lemma KnownTokens(cfg: Config, s: State, out: Outcome, login: Login, c: nat, u: nat)
    requires c < |s.clients| && Owns(s, login.identity, u) && KnownAnswer(cfg, s, out, login, c, u)
    ensures out.reply.Tokens? <==> Fresh(cfg, s, login.raw) && Welcome(s, login.identity, u)
  {
    hide Fresh, Owns, LinkedTo;
  }

  lemma NewcomerTokens(cfg: Config, s: State, out: Outcome, login: Login, c: nat)
    requires c < |s.clients| && NewcomerAnswer(cfg, s, out, login, c)
    ensures out.reply.Tokens? <==> Fresh(cfg, s, login.raw)
  {
    hide Fresh;
  }

  /** A verified login through a known public client gets tokens if and only if its refresh token is fresh and
      the identity belongs to an active, unlocked customer, or to nobody yet. */
  lemma FederatedTokensExactly(cfg: Config, s: State, e: Event, c: nat)
    requires EmailsOk(cfg, s) && LinksOk(s) && DistinctIds(s.clients)
    ensures var login := VerifiedLogin(cfg, s, e);
            login.Some? && PublicClient(s, login.value.clientId, c) ==>
              var a := login.value.identity;
              Step(cfg, s, e).reply.Tokens? <==>
                Fresh(cfg, s, login.value.raw) && (Nobodys(s, a) || exists u: nat :: Welcome(s, a, u))
  {
    var verified := VerifiedLogin(cfg, s, e);
    PublicRow(s, if verified.Some? then verified.value.clientId else "", c);
    hide *;
    if verified.Some? && PublicClient(s, verified.value.clientId, c) {
      var login, out := verified.value, Step(cfg, s, e);
      var a := login.identity;
      var u := OwnerOrNobody(cfg, s, a);
      OwnerIsUser(s, a, u);
      OneOwner(cfg, s, a, u);
      WelcomeOwners(s, a);
      if Nobodys(s, a) {
        LoginOfNewcomer(cfg, s, e, c);
        NewcomerTokens(cfg, s, out, login, c);
      } else {
        LoginOfKnown(cfg, s, e, c, u);
        KnownTokens(cfg, s, out, login, c, u);
      }
    }
  }

  lemma PublicRow(s: State, clientId: string, c: nat)
    ensures PublicClient(s, clientId, c) ==> c < |s.clients|
  {
  }

  lemma WelcomeOwners(s: State, a: Assertion)
    ensures forall u: nat | Welcome(s, a, u) :: Owns(s, a, u)
  {
    hide Owns;
  }

  lemma OneOwner(cfg: Config, s: State, a: Assertion, u: nat)
    requires EmailsOk(cfg, s) && LinksOk(s)
    ensures Owns(s, a, u) ==> !Nobodys(s, a) && forall v: nat | Owns(s, a, v) :: v == u
  {
    forall v: nat | Owns(s, a, u) && Owns(s, a, v) ensures v == u {
      if LinkedTo(s, a, u) {
        var k :| 0 <= k < |s.idents| && s.idents[k] == Identity(u, a.provider, a.subject);
        var l :| 0 <= l < |s.idents| && s.idents[l] == Identity(v, a.provider, a.subject);
        LinkedAt(s, k);
        LinkedAt(s, l);
      }
    }
  }

  /** An assertion that is not verified, or one through a client that is not public, changes nothing. */
  lemma LoginRefused(cfg: Config, s: State, e: Event)
    ensures e.TelegramRequested? && VerifiedLogin(cfg, s, e).None? ==>
              var r := e.telegram;
              var young := s.now - r.authDate * 1_000_000 <= 24 * 60 * 60 * 1_000_000;
              Step(cfg, s, e) == Outcome(s, Refused(
                  if cfg.botToken == "" then FederatedDisabled
                  else if r.hash != "" && young && !Ascii(r.hash) then ServerError else InvalidGrant))
    ensures e.GoogleRequested? && VerifiedLogin(cfg, s, e).None? ==>
              Step(cfg, s, e) == Outcome(s, Refused(if cfg.googleEnabled then InvalidGrant else FederatedDisabled))
    ensures var login := VerifiedLogin(cfg, s, e);
            login.Some? && (forall c: nat :: !PublicClient(s, login.value.clientId, c)) ==>
              Step(cfg, s, e) == Outcome(s, Refused(UnauthorizedClient))
  {
    VerifiedStep(cfg, s, e);
    if e.TelegramRequested? {
      TelegramIds.VerdictReads(cfg, s.now, e.telegram);
    }
    hide FederatedLogin, WidgetPayload, Decimal, Strip, Lower, TelegramWidget.Verdict, Ascii, Steps.Token;
    var login := VerifiedLogin(cfg, s, e);
    if login.Some? && (forall c: nat :: !PublicClient(s, login.value.clientId, c)) {
      NoPublicClient(cfg, s, login.value);
    }
  }

  lemma NoPublicClient(cfg: Config, s: State, login: Login)
    requires forall c: nat :: !PublicClient(s, login.clientId, c)
    ensures SharedLogin(cfg, s, login) == Outcome(s, Refused(UnauthorizedClient))
  {
    var client := AuthenticateClient(cfg, s, Creds(login.clientId, "", "", ""));
    if client.Some? {
      assert !PublicClient(s, login.clientId, client.value);
    }
    hide Resolve, Issue;
  }
}
