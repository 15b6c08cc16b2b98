/** Bootstrap runs at every start: it completes what is missing and leaves the rest alone. */
module Restarts {
  import opened Text
  import opened Store
  import opened Steps

  lemma {:induction false} MergedKeeps(have: seq<string>, want: seq<string>)
    ensures have <= Merged(have, want)
    ensures Elems(Merged(have, want)) == Elems(have) + Elems(want)
    decreases |want|
  {
    if want != [] {
      var next := if want[0] in have then have else have + [want[0]];
      MergedKeeps(next, want[1..]);
      assert want == [want[0]] + want[1..];
      assert Elems(next) == Elems(have) + {want[0]};
      assert have <= next;
    }
  }

  lemma {:induction false} MergedNothing(have: seq<string>, want: seq<string>)
    requires forall w | w in want :: w in have
    ensures Merged(have, want) == have
    decreases |want|
  {
    if want != [] {
      assert want[0] in want;
      MergedNothing(have, want[1..]);
    }
  }

  /** Merging a list a second time adds nothing. */
  lemma MergedIdempotent(have: seq<string>, want: seq<string>)
    ensures Merged(Merged(have, want), want) == Merged(have, want)
  {
    MergedKeeps(have, want);
    forall w | w in want ensures w in Merged(have, want) {
      assert w in Elems(Merged(have, want));
    }
    MergedNothing(Merged(have, want), want);
  }

  lemma {:induction false} FindClientUpdate(clients: seq<Client>, c: nat, row: Client, id: string)
    requires c < |clients| && row.clientId == clients[c].clientId
    ensures FindClient(clients[c := row], id) == FindClient(clients, id)
  {
    var n := |clients| - 1;
    if c == n {
      assert clients[c := row][..n] == clients[..n];
    } else {
      assert clients[c := row][..n] == clients[..n][c := row];
      FindClientUpdate(clients[..n], c, row, id);
    }
  }

  lemma FindClientSnoc(clients: seq<Client>, row: Client, id: string)
    ensures FindClient(clients + [row], id) == if row.clientId == id then Some(|clients|) else FindClient(clients, id)
  {
    assert (clients + [row])[..|clients|] == clients;
  }

  lemma MarketClientSettles(cfg: Config, s: State)
    ensures EnsureMarketClient(cfg, EnsureMarketClient(cfg, s)) == EnsureMarketClient(cfg, s)
    ensures var t := EnsureMarketClient(cfg, s);
            FindClient(s.clients, cfg.bootClientId).Some? ==> FindClient(t.clients, cfg.bootClientId).Some?
  {
    var t := EnsureMarketClient(cfg, s);
    match FindClient(s.clients, cfg.publicClientId) {
      case None =>
        FindClientSnoc(s.clients, MarketClient(cfg), cfg.publicClientId);
        FindClientSnoc(s.clients, MarketClient(cfg), cfg.bootClientId);
        MergedNothing(MARKET_GRANTS, MARKET_GRANTS);
        MergedNothing(MarketUris(cfg), MarketUris(cfg));
        assert t.clients[|s.clients|] == MarketClient(cfg);
        assert EnsureMarketClient(cfg, t).clients == t.clients;
      case Some(c) =>
        var was, row := s.clients[c], t.clients[c];
        FindClientUpdate(s.clients, c, row, cfg.publicClientId);
        FindClientUpdate(s.clients, c, row, cfg.bootClientId);
        MergedIdempotent(was.grants, MARKET_GRANTS);
        MergedIdempotent(was.redirectUris, MarketUris(cfg));
        assert EnsureMarketClient(cfg, t).clients == t.clients;
    }
  }

  lemma AdminSettles(cfg: Config, s: State)
    ensures EnsureAdmin(cfg, EnsureAdmin(cfg, s)) == EnsureAdmin(cfg, s)
    ensures EnsureAdmin(cfg, s).clients == s.clients && EnsureAdmin(cfg, s).roleNames == s.roleNames
  {
    var email := Normal(cfg.lower, cfg.adminEmail);
    var t := EnsureAdmin(cfg, s);
    if t != s {
      assert t.users[|s.users|].email == email;
      assert FindUser(t.users, email).Some?;
    }
  }

  lemma MarketClientOnly(cfg: Config, s: State, t: State)
    requires s.clients == t.clients && EnsureMarketClient(cfg, s) == s
    ensures EnsureMarketClient(cfg, t) == t
  {
  }

  /** A restart right after a bootstrap changes nothing, from every state. */
  lemma BootstrapIdempotent(cfg: Config, s: State)
    ensures Bootstrap(cfg, Bootstrap(cfg, s)) == Bootstrap(cfg, s)
  {
    var a := s.(roleNames := s.roleNames + {"admin", "user"});
    var b := EnsureBootClient(cfg, a);
    var c := EnsureMarketClient(cfg, b);
    var t := EnsureAdmin(cfg, c);
    FindClientSnoc(a.clients, BootClient(cfg), cfg.bootClientId);
    MarketClientSettles(cfg, b);
    AdminSettles(cfg, c);
    assert t.roleNames + {"admin", "user"} == t.roleNames;
    assert t.(roleNames := t.roleNames + {"admin", "user"}) == t;
    assert EnsureBootClient(cfg, t) == t;
    MarketClientOnly(cfg, c, t);
  }

  /** What stood in a list before a bootstrap still stands there, in front. */
  predicate ListsKept(a: Client, b: Client) {
    && a.redirectUris <= b.redirectUris && a.grants <= b.grants
    && b == a.(redirectUris := b.redirectUris, grants := b.grants)
  }

  /** Bootstrap keeps every user, every token and every client row, up to entries appended to the lists
      of the public client. */
  lemma BootstrapKeeps(cfg: Config, s: State)
    ensures var t := Bootstrap(cfg, s);
            && s.users <= t.users && t.codes == s.codes && t.refresh == s.refresh
            && t.audits == s.audits && t.idents == s.idents
            && |s.clients| <= |t.clients|
            && (forall c | 0 <= c < |s.clients| :: ListsKept(s.clients[c], t.clients[c]))
  {
    var a := s.(roleNames := s.roleNames + {"admin", "user"});
    var b := EnsureBootClient(cfg, a);
    var found := FindClient(b.clients, cfg.publicClientId);
    if found.Some? {
      MergedKeeps(b.clients[found.value].grants, MARKET_GRANTS);
      MergedKeeps(b.clients[found.value].redirectUris, MarketUris(cfg));
    }
  }

  /** After a start the public client may use codes and refresh tokens and has every redirect URI of the
      deployment, whatever it had before; nothing but these has been added. */
  lemma PublicClientCompleted(cfg: Config, s: State, c: nat)
    requires c < |s.clients| && FindClient(s.clients, cfg.publicClientId) == Some(c)
    ensures var t := Bootstrap(cfg, s);
            var uris := if Split(cfg.publicUris) == [] then ["http://127.0.0.1/callback"] else Split(cfg.publicUris);
            && t.roleNames == s.roleNames + {"admin", "user"} && c < |t.clients|
            && ListsKept(s.clients[c], t.clients[c])
            && Elems(t.clients[c].grants) == Elems(s.clients[c].grants) + {"authorization_code", "refresh_token"}
            && Elems(t.clients[c].redirectUris) == Elems(s.clients[c].redirectUris) + Elems(uris)
  {
    hide Split, Normal;
    BootstrapKeeps(cfg, s);
    var a := s.(roleNames := s.roleNames + {"admin", "user"});
    var b := EnsureBootClient(cfg, a);
    BootKeepsPublic(cfg, a, c);
    MergedKeeps(s.clients[c].grants, MARKET_GRANTS);
    MergedKeeps(s.clients[c].redirectUris, MarketUris(cfg));
    assert Elems(MARKET_GRANTS) == {"authorization_code", "refresh_token"};
    assert Bootstrap(cfg, s).clients == EnsureMarketClient(cfg, b).clients;
  }

  lemma BootKeepsPublic(cfg: Config, s: State, c: nat)
    requires c < |s.clients| && FindClient(s.clients, cfg.publicClientId) == Some(c)
    ensures var t := EnsureBootClient(cfg, s);
            c < |t.clients| && t.clients[c] == s.clients[c] && FindClient(t.clients, cfg.publicClientId) == Some(c)
  {
    FindClientSnoc(s.clients, BootClient(cfg), cfg.publicClientId);
    var found := FindClient(s.clients, cfg.bootClientId);
  }
}
