/** Failed logins and locks over whole runs: how often a password can be guessed, and how long a lock holds. */
module Lockout {
  import opened Text
  import opened Store
  import opened Steps
  import opened Machine
  import opened Effects
  import TelegramWidget
  import opened Scopes

  // ---------------------------------------------------------------- what one event does to a lock

  /** The event has the server compare a password with the one of user `u`, and it is wrong. */
  predicate WrongCheck(cfg: Config, s: State, e: Event, u: nat) {
    && u < |s.users| && e.TokenRequest? && e.grant.Password? && e.grant.username != "" && e.grant.password != ""
    && var client := AuthenticateClient(cfg, s, e.creds);
    && client.Some? && PasswordCandidate(cfg, s, client.value, e.grant.username) == Some(u)
    && !cfg.verify(e.grant.password, s.users[u].passwordHash)
  }

  /** The event logs user `u` in: by password, by a federated assertion or by a code. Rotation of a
      refresh token is no login. */
  predicate LogsIn(cfg: Config, s: State, e: Event, u: nat) {
    && !(e.TokenRequest? && e.grant.RefreshToken?)
    && var reply := Step(cfg, s, e).reply;
    && reply.Tokens? && reply.access.Access? && reply.access.sub == UserSubject(u)
  }

  predicate SameLock(a: User, b: User) { a.failed == b.failed && a.lockedUntil == b.lockedUntil }

  /** One failure more, and from the fifth on a lock of fifteen minutes. */
  predicate Counted(a: User, b: User, now: nat) {
    && b.failed == a.failed + 1
    && b.lockedUntil == if b.failed >= 5 then Some(now + 15 * 60 * 1_000_000) else a.lockedUntil
  }

  /** A wrong check bumps the lock fields, a login clears them, and nothing else touches them; both
      happen only while no lock is active. */
  predicate LockDid(cfg: Config, s: State, e: Event, t: State, u: nat)
    requires u < |s.users|
  {
    && u < |t.users| && s.now <= t.now
    && var wrong, login := WrongCheck(cfg, s, e, u), LogsIn(cfg, s, e, u);
    && (if wrong then Counted(s.users[u], t.users[u], s.now)
        else if login then t.users[u].failed == 0 && t.users[u].lockedUntil == None
        else SameLock(s.users[u], t.users[u]))
    && (wrong || login ==> !Locked(s.users[u], s.now) && t.now == s.now)
    && !(wrong && login)
  }

  lemma PasswordLock(cfg: Config, s: State, creds: Creds, grant: Grant, u: nat)
    requires u < |s.users| && grant.Password?
    ensures LockDid(cfg, s, TokenRequest(creds, grant), Token(cfg, s, creds, grant).state, u)
  {
    hide AuthenticateClient, UserScope;
  }

  lemma CodeLock(cfg: Config, s: State, creds: Creds, grant: Grant, u: nat)
    requires u < |s.users| && grant.AuthorizationCode?
    ensures LockDid(cfg, s, TokenRequest(creds, grant), Token(cfg, s, creds, grant).state, u)
  {
    hide AuthenticateClient, UserScope;
    var client := AuthenticateClient(cfg, s, creds);
    if client.Some? && grant.code != "" && grant.redirectUri != "" {
      CodeOutcome(cfg, s, client.value, grant.code, grant.redirectUri, grant.verifier, grant.raw);
    }
  }

  lemma RefreshLock(cfg: Config, s: State, creds: Creds, grant: Grant, u: nat)
    requires u < |s.users| && (grant.RefreshToken? || grant.ClientCredentials?)
    ensures LockDid(cfg, s, TokenRequest(creds, grant), Token(cfg, s, creds, grant).state, u)
  {
  }

  lemma ResolveKeepsUsers(s: State, provider: Provider, subject: string, email: string, passwordHash: string)
    ensures var r := Resolve(s, provider, subject, email, passwordHash);
            r.Resolved? ==>
              && |s.users| <= |r.state.users| && r.state.users[..|s.users|] == s.users
              && (forall u | |s.users| <= u < |r.state.users| ::
                    r.state.users[u].failed == 0 && r.state.users[u].lockedUntil == None)
  {
  }

  /** The lock fields after a federated login. */
  lemma FederatedLock(cfg: Config, s: State, provider: Provider, subject: string, email: string,
                      clientId: string, scope: string, raw: string, passwordHash: string, u: nat)
    requires u < |s.users|
    ensures var out := FederatedLogin(cfg, s, provider, subject, email, clientId, scope, raw, passwordHash);
            var login := out.reply.Tokens? && out.reply.access.Access? && out.reply.access.sub == UserSubject(u);
            && u < |out.state.users| && out.state.now == s.now
            && SameLock(out.state.users[u], if login then s.users[u].(failed := 0, lockedUntil := None) else s.users[u])
            && (login ==> !Locked(s.users[u], s.now))
  {
    FederatedOutcome(cfg, s, provider, subject, email, clientId, scope, raw, passwordHash);
    ResolveKeepsTokens(s, provider, subject, email, passwordHash);
    ResolveKeepsUsers(s, provider, subject, email, passwordHash);
    var r := Resolve(s, provider, subject, email, passwordHash);
    if r.Resolved? {
      assert r.state.users[u] == r.state.users[..|s.users|][u] == s.users[u];
    }
  }

  lemma BootstrapLock(cfg: Config, s: State, u: nat)
    requires u < |s.users|
    ensures u < |Bootstrap(cfg, s).users| && Bootstrap(cfg, s).users[u] == s.users[u] && Bootstrap(cfg, s).now == s.now
  {
  }

  lemma LockStep(cfg: Config, s: State, e: Event, u: nat)
    requires u < |s.users|
    ensures LockDid(cfg, s, e, Next(cfg, s, e), u)
  {
    hide Token, FederatedLogin, TelegramWidget.Verdict, Bootstrap, AuthenticateClient, PasswordCandidate;
    hide Authorize, KnownPrefix, WidgetPayload;
    match e {
      case AuthorizeRequested(r) => AuthorizeOnlyAddsCodes(cfg, s, r);
      case TokenRequest(creds, grant) =>
        if grant.Password? { PasswordLock(cfg, s, creds, grant, u); }
        else if grant.AuthorizationCode? { CodeLock(cfg, s, creds, grant, u); }
        else { RefreshLock(cfg, s, creds, grant, u); }
      case TelegramRequested(r) =>
        FederatedLock(cfg, s, Telegram, Decimal(r.id), SyntheticEmail(r.id), r.clientId, r.scope, r.raw,
            r.passwordHash, u);
      case GoogleRequested(r) =>
        if r.idToken.Some? {
          FederatedLock(cfg, s, Google, r.idToken.value.0, Normal(cfg.lower, r.idToken.value.1),
                        r.clientId, r.scope, r.raw, r.passwordHash, u);
        }
      case Restarted => BootstrapLock(cfg, s, u);
      case _ =>
    }
  }

  // ---------------------------------------------------------------- the invariant

  /** Five failures, or more, exactly while a lock time is set; and no lock reaches further than fifteen
      minutes ahead. */
  predicate LockOk(user: User, now: nat) {
    && (user.failed >= 5 <==> user.lockedUntil.Some?)
    && (user.lockedUntil.Some? ==> user.lockedUntil.value <= now + 15 * 60 * 1_000_000)
  }

  predicate LocksOk(s: State) { forall u | 0 <= u < |s.users| :: LockOk(s.users[u], s.now) }

  predicate NewUsersUnlocked(s: State, t: State) {
    forall u | |s.users| <= u < |t.users| :: t.users[u].failed == 0 && t.users[u].lockedUntil == None
  }

  lemma FederatedNewUsers(cfg: Config, s: State, provider: Provider, subject: string, email: string,
                          clientId: string, scope: string, raw: string, passwordHash: string)
    ensures NewUsersUnlocked(s, FederatedLogin(cfg, s, provider, subject, email, clientId, scope, raw,
        passwordHash).state)
  {
    FederatedOutcome(cfg, s, provider, subject, email, clientId, scope, raw, passwordHash);
    ResolveKeepsUsers(s, provider, subject, email, passwordHash);
  }

  lemma TokenNewUsers(cfg: Config, s: State, creds: Creds, grant: Grant)
    ensures |Token(cfg, s, creds, grant).state.users| == |s.users|
  {
    hide AuthenticateClient;
    var client := AuthenticateClient(cfg, s, creds);
    if grant.AuthorizationCode? && client.Some? && grant.code != "" && grant.redirectUri != "" {
      CodeOutcome(cfg, s, client.value, grant.code, grant.redirectUri, grant.verifier, grant.raw);
    }
  }

  lemma StepNewUsers(cfg: Config, s: State, e: Event)
    ensures NewUsersUnlocked(s, Next(cfg, s, e))
  {
    hide Token, Authorize, FederatedLogin, TelegramWidget.Verdict;
    match e {
      case AuthorizeRequested(r) => AuthorizeOnlyAddsCodes(cfg, s, r);
      case TokenRequest(creds, grant) => TokenNewUsers(cfg, s, creds, grant);
      case TelegramRequested(r) =>
        FederatedNewUsers(cfg, s, Telegram, Decimal(r.id), SyntheticEmail(r.id), r.clientId, r.scope, r.raw,
            r.passwordHash);
      case GoogleRequested(r) =>
        if r.idToken.Some? {
          FederatedNewUsers(cfg, s, Google, r.idToken.value.0, Normal(cfg.lower, r.idToken.value.1),
                            r.clientId, r.scope, r.raw, r.passwordHash);
        }
      case _ =>
    }
  }

  lemma LockOkKept(cfg: Config, s: State, e: Event, t: State, u: nat)
    requires u < |s.users| && LockOk(s.users[u], s.now) && LockDid(cfg, s, e, t, u)
    ensures LockOk(t.users[u], t.now)
  {
  }

  lemma LocksOkStep(cfg: Config, s: State, e: Event)
    requires LocksOk(s)
    ensures LocksOk(Next(cfg, s, e))
  {
    var t := Next(cfg, s, e);
    StepNewUsers(cfg, s, e);
    forall u | 0 <= u < |t.users| ensures LockOk(t.users[u], t.now) {
      if u < |s.users| {
        LockStep(cfg, s, e, u);
        LockOkKept(cfg, s, e, t, u);
      }
    }
  }

  lemma {:induction false} LocksOkRun(cfg: Config, s: State, es: seq<Event>)
    requires LocksOk(s)
    ensures LocksOk(Run(cfg, s, es))
    decreases |es|
  {
    if es != [] {
      LocksOkStep(cfg, s, es[0]);
      LocksOkRun(cfg, Next(cfg, s, es[0]), es[1..]);
    }
  }

  // ---------------------------------------------------------------- the guess-rate bound

  /** How many wrong passwords of user `u` are checked in a run. */
  function WrongChecks(cfg: Config, s: State, es: seq<Event>, u: nat): nat
    decreases |es|
  {
    if es == [] then 0 else
      (if WrongCheck(cfg, s, es[0], u) then 1 else 0) + WrongChecks(cfg, Next(cfg, s, es[0]), es[1..], u)
  }

  /** User `u` does not log in during the run. */
  predicate NoLogin(cfg: Config, s: State, es: seq<Event>, u: nat)
    decreases |es|
  {
    es == [] || (!LogsIn(cfg, s, es[0], u) && NoLogin(cfg, Next(cfg, s, es[0]), es[1..], u))
  }

  /** How many wrong passwords can still be checked between `now` and `end`. */
  function Budget(user: User, now: nat, end: nat): nat {
    if user.failed < MAX_FAILED then (MAX_FAILED - user.failed) + Windows(now, end)
    else
      var free := if user.lockedUntil.Some? && user.lockedUntil.value > now then user.lockedUntil.value else now;
      if free <= end then 1 + Windows(free, end) else 0
  }

  function Windows(now: nat, end: nat): nat { if now <= end then (end - now) / LOCK_TIME else 0 }

  lemma WindowsShift(now: nat, end: nat)
    ensures now + LOCK_TIME <= end ==> Windows(now, end) == 1 + Windows(now + LOCK_TIME, end)
    ensures now <= end < now + LOCK_TIME ==> Windows(now, end) == 0
  {
  }

  lemma WindowsMonotone(a: nat, b: nat, end: nat)
    requires a <= b
    ensures Windows(b, end) <= Windows(a, end)
  {
  }

  lemma BudgetSpent(user: User, now: nat, end: nat)
    requires LockOk(user, now) && !Locked(user, now) && now <= end
    ensures Budget(Bumped(user, now), now, end) + 1 <= Budget(user, now, end)
  {
    WindowsShift(now, end);
  }

  lemma BudgetWaits(a: User, b: User, now: nat, later: nat, end: nat)
    requires SameLock(a, b) && now <= later
    ensures Budget(b, later, end) <= Budget(a, now, end)
  {
    WindowsMonotone(now, later, end);
    if a.failed >= MAX_FAILED {
      var free := if a.lockedUntil.Some? && a.lockedUntil.value > now then a.lockedUntil.value else now;
      var resumed := if a.lockedUntil.Some? && a.lockedUntil.value > later then a.lockedUntil.value else later;
      WindowsMonotone(free, resumed, end);
    }
  }

  lemma {:induction false} RunTime(cfg: Config, s: State, es: seq<Event>)
    ensures s.now <= Run(cfg, s, es).now
    decreases |es|
  {
    if es != [] {
      var effect := StepEffect(cfg, s, es[0]);
      RunTime(cfg, Next(cfg, s, es[0]), es[1..]);
    }
  }

  lemma {:induction false} WrongChecksWithinBudget(cfg: Config, s: State, es: seq<Event>, u: nat)
    requires u < |s.users| && LocksOk(s) && NoLogin(cfg, s, es, u)
    ensures WrongChecks(cfg, s, es, u) <= Budget(s.users[u], s.now, Run(cfg, s, es).now)
    decreases |es|
  {
    if es != [] {
      var m, end := Next(cfg, s, es[0]), Run(cfg, s, es).now;
      LockStep(cfg, s, es[0], u);
      LocksOkStep(cfg, s, es[0]);
      RunTime(cfg, m, es[1..]);
      WrongChecksWithinBudget(cfg, m, es[1..], u);
      assert LockOk(s.users[u], s.now);
      if WrongCheck(cfg, s, es[0], u) {
        BudgetSpent(s.users[u], s.now, end);
        BudgetWaits(Bumped(s.users[u], s.now), m.users[u], s.now, m.now, end);
      } else {
        BudgetWaits(s.users[u], m.users[u], s.now, m.now, end);
      }
    }
  }

  lemma BudgetBound(user: User, now: nat, end: nat)
    requires now <= end
    ensures Budget(user, now, end) <= MAX_FAILED + (end - now) / LOCK_TIME
  {
    if user.failed >= MAX_FAILED {
      var free := if user.lockedUntil.Some? && user.lockedUntil.value > now then user.lockedUntil.value else now;
      WindowsMonotone(now, free, end);
    }
  }

  /** The guess-rate bound: in any stretch of any run, of length T, during which the user does not log
      in, at most 5 + floor(T / 15 min) wrong passwords are checked. */
  lemma {:induction false} GuessRate(cfg: Config, s: State, es: seq<Event>, u: nat)
    requires u < |s.users| && LocksOk(s) && NoLogin(cfg, s, es, u)
    ensures WrongChecks(cfg, s, es, u) <= 5 + (Run(cfg, s, es).now - s.now) / (15 * 60 * 1_000_000)
  {
    hide Step;
    RunTime(cfg, s, es);
    WrongChecksWithinBudget(cfg, s, es, u);
    BudgetBound(s.users[u], s.now, Run(cfg, s, es).now);
  }

  /** The same bound for stretches of runs that start from an empty database. */
  lemma {:induction false} ReachableGuessRate(cfg: Config, before: seq<Event>, es: seq<Event>, u: nat)
    requires u < |Run(cfg, EMPTY, before).users| && NoLogin(cfg, Run(cfg, EMPTY, before), es, u)
    ensures var s := Run(cfg, EMPTY, before);
            WrongChecks(cfg, s, es, u) <= 5 + (Run(cfg, s, es).now - s.now) / (15 * 60 * 1_000_000)
  {
    hide Step;
    LocksOkRun(cfg, EMPTY, before);
    GuessRate(cfg, Run(cfg, EMPTY, before), es, u);
  }

  // ---------------------------------------------------------------- the bound is exact

  /** This password login would have the server check a wrong password of user `u`, if `u` is not locked. */
  predicate Guessable(cfg: Config, s: State, creds: Creds, username: string, password: string, u: nat) {
    && username != "" && password != "" && u < |s.users| && s.users[u].active
    && FindUser(s.users, Normal(cfg.lower, username)) == Some(u)
    && !cfg.verify(password, s.users[u].passwordHash)
    && var client := AuthenticateClient(cfg, s, creds);
    && client.Some? && PasswordAllowed(cfg, s.clients[client.value])
  }

  lemma {:induction false} FindUserKeeps(users: seq<User>, others: seq<User>, email: string)
    requires |users| == |others| && forall i | 0 <= i < |users| :: users[i].email == others[i].email
    ensures FindUser(users, email) == FindUser(others, email)
  {
    if users != [] {
      FindUserKeeps(users[..|users| - 1], others[..|users| - 1], email);
    }
  }

  function Guess(creds: Creds, username: string, password: string): Event {
    TokenRequest(creds, Password(username, password, "", ""))
  }

  lemma GuessChecks(cfg: Config, s: State, creds: Creds, username: string, password: string, u: nat)
    requires Guessable(cfg, s, creds, username, password, u) && !Locked(s.users[u], s.now)
    ensures var e := Guess(creds, username, password);
            && WrongCheck(cfg, s, e, u) && !LogsIn(cfg, s, e, u)
            && var t := Next(cfg, s, e);
            && Guessable(cfg, t, creds, username, password, u)
            && t.now == s.now && t.users[u] == Bumped(s.users[u], s.now)
  {
    var t := Next(cfg, s, Guess(creds, username, password));
    assert t.users == s.users[u := Bumped(s.users[u], s.now)];
    FindUserKeeps(s.users, t.users, Normal(cfg.lower, username));
  }

  /** `n` guesses in a row. */
  function Guesses(creds: Creds, username: string, password: string, n: nat): seq<Event> {
    if n == 0 then [] else [Guess(creds, username, password)] + Guesses(creds, username, password, n - 1)
  }

  /** `n` times: wait out the lock, then guess once. */
  function Rounds(creds: Creds, username: string, password: string, n: nat): seq<Event> {
    if n == 0 then []
    else [Tick(LOCK_TIME), Guess(creds, username, password)] + Rounds(creds, username, password, n - 1)
  }

  lemma CheckedFirst(cfg: Config, s: State, e: Event, rest: seq<Event>, u: nat)
    ensures var es, t := [e] + rest, Next(cfg, s, e);
            && WrongChecks(cfg, s, es, u) == (if WrongCheck(cfg, s, e, u) then 1 else 0) + WrongChecks(cfg, t, rest, u)
            && (NoLogin(cfg, s, es, u) <==> !LogsIn(cfg, s, e, u) && NoLogin(cfg, t, rest, u))
            && Run(cfg, s, es) == Run(cfg, t, rest)
  {
    hide Step, WrongCheck, LogsIn;
    assert ([e] + rest)[1..] == rest;
  }

  lemma CheckedNone(cfg: Config, s: State, u: nat)
    ensures WrongChecks(cfg, s, [], u) == 0 && NoLogin(cfg, s, [], u) && Run(cfg, s, []) == s
  {
  }

  lemma WaitChecksNothing(cfg: Config, s: State, creds: Creds, username: string, password: string, u: nat)
    ensures var wait, m := Tick(LOCK_TIME), s.(now := s.now + LOCK_TIME);
            && Next(cfg, s, wait) == m && !WrongCheck(cfg, s, wait, u) && !LogsIn(cfg, s, wait, u)
            && (Guessable(cfg, s, creds, username, password, u) ==> Guessable(cfg, m, creds, username, password, u))
  {
    hide Token, Authorize, TelegramLogin, GoogleLogin, Bootstrap;
  }

  lemma {:induction false} RoundsAllChecked(cfg: Config, s: State, creds: Creds, username: string, password: string,
                                            u: nat, n: nat)
    requires Guessable(cfg, s, creds, username, password, u)
    requires s.users[u].failed >= MAX_FAILED && s.users[u].lockedUntil == Some(s.now + LOCK_TIME)
    ensures var es := Rounds(creds, username, password, n);
            && WrongChecks(cfg, s, es, u) == n && NoLogin(cfg, s, es, u)
            && Run(cfg, s, es).now == s.now + n * LOCK_TIME
    decreases n
  {
    hide Step, Next, WrongCheck, LogsIn, Guessable, WrongChecks, NoLogin, Run;
    if n == 0 {
      CheckedNone(cfg, s, u);
    } else {
      var rest, guess := Rounds(creds, username, password, n - 1), Guess(creds, username, password);
      var es, m := Rounds(creds, username, password, n), s.(now := s.now + LOCK_TIME);
      WaitChecksNothing(cfg, s, creds, username, password, u);
      GuessChecks(cfg, m, creds, username, password, u);
      RoundsAllChecked(cfg, Next(cfg, m, guess), creds, username, password, u, n - 1);
      assert es == [Tick(LOCK_TIME)] + ([guess] + rest);
      CheckedFirst(cfg, s, Tick(LOCK_TIME), [guess] + rest, u);
      CheckedFirst(cfg, m, guess, rest, u);
    }
  }

  lemma {:induction false} GuessesThenRounds(cfg: Config, s: State, creds: Creds, username: string, password: string,
                                             u: nat, k: nat, n: nat)
    requires Guessable(cfg, s, creds, username, password, u)
    requires k + s.users[u].failed == MAX_FAILED && s.users[u].lockedUntil == None && k > 0
    ensures var es := Guesses(creds, username, password, k) + Rounds(creds, username, password, n);
            && WrongChecks(cfg, s, es, u) == k + n && NoLogin(cfg, s, es, u)
            && Run(cfg, s, es).now == s.now + n * LOCK_TIME
    decreases k
  {
    var guess := Guess(creds, username, password);
    var rest := Guesses(creds, username, password, k - 1) + Rounds(creds, username, password, n);
    assert Guesses(creds, username, password, k) + Rounds(creds, username, password, n) == [guess] + rest;
    GuessChecks(cfg, s, creds, username, password, u);
    var m := Next(cfg, s, guess);
    if k == 1 {
      assert rest == Rounds(creds, username, password, n);
      RoundsAllChecked(cfg, m, creds, username, password, u, n);
    } else {
      GuessesThenRounds(cfg, m, creds, username, password, u, k - 1, n);
    }
  }

  /** The bound cannot be lowered: for every n there is a run of length n * 15 min that has exactly
      5 + n wrong passwords checked. */
  lemma GuessRateReached(cfg: Config, s: State, creds: Creds, username: string, password: string, u: nat, n: nat)
    requires Guessable(cfg, s, creds, username, password, u)
    requires s.users[u].failed == 0 && s.users[u].lockedUntil == None
    ensures var es := Guesses(creds, username, password, 5) + Rounds(creds, username, password, n);
            && NoLogin(cfg, s, es, u)
            && WrongChecks(cfg, s, es, u) == 5 + n
            && Run(cfg, s, es).now == s.now + n * (15 * 60 * 1_000_000)
  {
    GuessesThenRounds(cfg, s, creds, username, password, u, MAX_FAILED, n);
  }

  // ---------------------------------------------------------------- an active lock holds

  /** No step shortens or extends an active lock: until the lock time has passed it keeps its value in
      every run, no password of the user is even compared, and no login succeeds. */
  lemma {:induction false} ActiveLockHolds(cfg: Config, s: State, es: seq<Event>, u: nat, until: nat)
    requires u < |s.users| && s.users[u].lockedUntil == Some(until)
    requires Run(cfg, s, es).now < until
    ensures u < |Run(cfg, s, es).users| && SameLock(Run(cfg, s, es).users[u], s.users[u])
    ensures NoLogin(cfg, s, es, u) && WrongChecks(cfg, s, es, u) == 0
    decreases |es|
  {
    if es != [] {
      var m := Next(cfg, s, es[0]);
      LockStep(cfg, s, es[0], u);
      RunTime(cfg, m, es[1..]);
      ActiveLockHolds(cfg, m, es[1..], u, until);
    }
  }
}
