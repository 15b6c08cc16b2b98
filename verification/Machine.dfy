/** Runs of the server: sequences of requests, admin edits, restarts and passing time. */
module Machine {
  import opened Text
  import opened Store
  import opened Steps

  datatype Event =
    | Tick(elapsed: nat)
    | TokenRequest(creds: Creds, grant: Grant)
    | RevokeRequest(token: string)
    | AuthorizeRequested(authorize: AuthorizeRequest)
    | TelegramRequested(telegram: TelegramRequest)
    | GoogleRequested(google: GoogleRequest)
    | UserCreated(email: string, kind: Kind, passwordHash: string)
    | UserPatched(user: nat, userPatch: UserPatch)
    | UserDeleted(user: nat)
    | RolesReplaced(user: nat, names: seq<string>)
    | RolesAdded(user: nat, names: seq<string>)
    | ClientCreated(client: Client)
    | ClientPatched(row: nat, clientPatch: ClientPatch)
    | Restarted

  function Step(cfg: Config, s: State, e: Event): Outcome {
    match e
    case Tick(d) => Outcome(s.(now := s.now + d), Done)
    case TokenRequest(creds, grant) => Token(cfg, s, creds, grant)
    case RevokeRequest(token) => Revoke(cfg, s, token)
    case AuthorizeRequested(r) => Authorize(cfg, s, r)
    case TelegramRequested(r) => TelegramLogin(cfg, s, r)
    case GoogleRequested(r) => GoogleLogin(cfg, s, r)
    case UserCreated(email, kind, hash) => CreateUser(cfg, s, email, kind, hash)
    case UserPatched(u, p) => PatchUser(cfg, s, u, p)
    case UserDeleted(u) => SoftDeleteUser(s, u)
    case RolesReplaced(u, names) => ReplaceUserRoles(s, u, names)
    case RolesAdded(u, names) => AddUserRoles(s, u, names)
    case ClientCreated(client) => CreateClient(s, client)
    case ClientPatched(c, p) => PatchClient(s, c, p)
    case Restarted => Outcome(Bootstrap(cfg, s), Done)
  }

  function Next(cfg: Config, s: State, e: Event): State { Step(cfg, s, e).state }

  /** The state a run ends in. */
  function Run(cfg: Config, s: State, es: seq<Event>): State
    decreases |es|
  {
    if es == [] then s else Run(cfg, Next(cfg, s, es[0]), es[1..])
  }

  lemma {:induction false} RunAppend(cfg: Config, s: State, es: seq<Event>, fs: seq<Event>)
    ensures Run(cfg, s, es + fs) == Run(cfg, Run(cfg, s, es), fs)
    decreases |es|
  {
    if es == [] {
      assert es + fs == fs;
    } else {
      assert (es + fs)[1..] == es[1..] + fs;
      RunAppend(cfg, Next(cfg, s, es[0]), es[1..], fs);
    }
  }
}
