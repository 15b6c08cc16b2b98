/** What the edits of the admin API do to a user. */
module AdminEdits {
  import opened Text
  import opened Store
  import opened Steps

  /** The names of a request, without outer whitespace. */
  function Trimmed(names: seq<string>): (trimmed: seq<string>)
    ensures |trimmed| == |names|
  {
    seq(|names|, i requires 0 <= i < |names| => Strip(names[i]))
  }

  predicate AllKnown(names: seq<string>, known: set<string>) { forall i | 0 <= i < |names| :: names[i] in known }

  predicate NoRepeats(names: seq<string>) { forall i, j | 0 <= i < j < |names| :: names[i] != names[j] }

  /** The known prefix is a prefix, and the whole list exactly if every name is a known role. */
  lemma {:induction false} KnownPrefixExactly(names: seq<string>, known: set<string>)
    ensures KnownPrefix(names, known) <= Trimmed(names)
    ensures |KnownPrefix(names, known)| == |names| <==> AllKnown(Trimmed(names), known)
  {
    hide Strip;
    if names != [] && Strip(names[0]) in known {
      KnownPrefixExactly(names[1..], known);
      var all, rest := Trimmed(names), Trimmed(names[1..]);
      assert all == [Strip(names[0])] + rest;
      assert forall i | 0 <= i < |rest| :: rest[i] == all[i + 1];
    } else if names != [] {
      assert Trimmed(names)[0] == Strip(names[0]);
    }
  }

  lemma {:induction false} RepeatsCounted(names: seq<string>)
    ensures |Elems(names)| <= |names|
    ensures |Elems(names)| == |names| <==> NoRepeats(names)
    decreases |names|
  {
    if names != [] {
      var n := |names| - 1;
      RepeatsCounted(names[..n]);
      assert names == names[..n] + [names[n]];
      assert Elems(names) == Elems(names[..n]) + {names[n]};
      if names[n] in Elems(names[..n]) {
        assert exists i :: 0 <= i < n && names[i] == names[n];
      }
    }
  }

  /** A list with a repeated element has fewer elements than entries, whatever follows. */
  lemma RepeatedElems(names: seq<string>, rest: seq<string>)
    requires |Elems(names)| < |names|
    ensures |Elems(names + rest)| < |names + rest|
  {
    RepeatsCounted(names);
    RepeatsCounted(names + rest);
    var i, j :| 0 <= i < j < |names| && names[i] == names[j];
    assert (names + rest)[i] == (names + rest)[j];
  }

  /** Only the roles of this user may differ. */
  predicate OnlyRoles(s: State, t: State, u: nat)
    requires u < |s.users|
  {
    |t.users| == |s.users| && t == s.(users := s.users[u := s.users[u].(roles := t.users[u].roles)])
  }

  /** Replacing roles succeeds exactly for distinct known roles, and then they are the roles of the user. */
  lemma ReplacedRoles(s: State, u: nat, names: seq<string>)
    requires u < |s.users|
    ensures var out, trimmed := ReplaceUserRoles(s, u, names), Trimmed(names);
            && OnlyRoles(s, out.state, u)
            && (out.reply == Done <==> AllKnown(trimmed, s.roleNames) && NoRepeats(trimmed))
            && (out.reply == Done ==> out.state.users[u].roles == Elems(trimmed))
  {
    hide KnownPrefix, Trimmed;
    KnownPrefixExactly(names, s.roleNames);
    RepeatsCounted(KnownPrefix(names, s.roleNames));
    RepeatsCounted(Trimmed(names));
    assert s.(users := s.users[u := s.users[u].(roles := s.users[u].roles)]) == s;
  }

  /** Adding roles succeeds exactly for known roles, repeated or already held ones included; no role is
      ever lost. */
  lemma AddedRoles(s: State, u: nat, names: seq<string>)
    requires u < |s.users|
    ensures var out, trimmed := AddUserRoles(s, u, names), Trimmed(names);
            && OnlyRoles(s, out.state, u)
            && (out.reply == Done <==> AllKnown(trimmed, s.roleNames))
            && (out.reply == Done ==> out.state.users[u].roles == s.users[u].roles + Elems(trimmed))
            && s.users[u].roles <= out.state.users[u].roles
  {
    hide KnownPrefix, Trimmed;
    KnownPrefixExactly(names, s.roleNames);
  }

  lemma {:induction false} PrefixStops(names: seq<string>, known: set<string>, n: nat)
    requires n <= |names| && AllKnown(Trimmed(names)[..n], known)
    requires n < |names| ==> Trimmed(names)[n] !in known
    ensures KnownPrefix(names, known) == Trimmed(names)[..n]
  {
    hide Strip;
    if n > 0 {
      var all, rest := Trimmed(names), Trimmed(names[1..]);
      assert all == [Strip(names[0])] + rest && all[..n] == [all[0]] + rest[..n - 1];
      assert all[..n][0] == Strip(names[0]);
      var front, tail := all[..n], rest[..n - 1];
      assert front[1..] == tail;
      forall i | 0 <= i < |tail| ensures tail[i] in known {
        assert tail[i] == front[i + 1];
      }
      PrefixStops(names[1..], known, n - 1);
    }
  }

  /** Where a request of role names first has an unknown one, at `n` of the list or not at all, replacing and
      adding stop there: the names before it take effect all the same, and the request fails. Replacing with a
      name that is repeated before that point fails and changes nothing. */
  lemma RolesUpTo(s: State, u: nat, names: seq<string>, n: nat)
    requires u < |s.users| && n <= |names| && AllKnown(Trimmed(names)[..n], s.roleNames)
    requires n < |names| ==> Trimmed(names)[n] !in s.roleNames
    ensures var given, reply := Elems(Trimmed(names)[..n]), if n == |names| then Done else Refused(UnknownRole);
            && AddUserRoles(s, u, names)
               == Outcome(s.(users := s.users[u := s.users[u].(roles := s.users[u].roles + given)]), reply)
            && ReplaceUserRoles(s, u, names)
               == if NoRepeats(Trimmed(names)[..n])
                  then Outcome(s.(users := s.users[u := s.users[u].(roles := given)]), reply)
                  else Outcome(s, Refused(ServerError))
  {
    hide KnownPrefix, Trimmed, NoRepeats;
    PrefixStops(names, s.roleNames, n);
    RepeatsCounted(Trimmed(names)[..n]);
  }

  // ---------------------------------------------------------------- the user patch

  predicate FreeAddress(cfg: Config, s: State, u: nat, email: string)
    requires u < |s.users|
  {
    var e := Normal(cfg.lower, email);
    e == s.users[u].email || forall v | 0 <= v < |s.users| :: s.users[v].email != e
  }

  /** Each column is what the patch gives, normalised for the address, or else what it was; lockout and
      roles are not touched. */
  predicate PatchedRow(cfg: Config, a: User, b: User, p: UserPatch) {
    && (if p.email.Some? then b.email == Normal(cfg.lower, p.email.value) else b.email == a.email)
    && (if p.active.Some? then b.active == p.active.value else b.active == a.active)
    && (if p.kind.Some? then b.kind == p.kind.value else b.kind == a.kind)
    && (if p.passwordHash.Some? then b.passwordHash == p.passwordHash.value else b.passwordHash == a.passwordHash)
    && b.lockedUntil == a.lockedUntil && b.failed == a.failed && b.roles == a.roles
  }

  /** A patch succeeds exactly if its address is the user's own or free; it then changes this row to what
      it says, and otherwise nothing. */
  lemma PatchedUser(cfg: Config, s: State, u: nat, p: UserPatch)
    requires u < |s.users|
    ensures var out := PatchUser(cfg, s, u, p);
            && (out.reply == Done <==> (p.email.Some? ==> FreeAddress(cfg, s, u, p.email.value)))
            && (out.reply == Done ==>
                  && |out.state.users| == |s.users| && PatchedRow(cfg, s.users[u], out.state.users[u], p)
                  && out.state == s.(users := s.users[u := out.state.users[u]]))
            && (out.reply != Done ==> out.state == s)
  {
    hide Normal;
  }

  // ---------------------------------------------------------------- the client patch

  /** Each column is what the patch gives, or else what it was; the identifier stands. */
  predicate PatchedClientRow(a: Client, b: Client, p: ClientPatch) {
    && b.clientId == a.clientId
    && (if p.isPublic.Some? then b.isPublic == p.isPublic.value else b.isPublic == a.isPublic)
    && (if p.redirectUris.Some? then b.redirectUris == p.redirectUris.value else b.redirectUris == a.redirectUris)
    && (if p.grants.Some? then b.grants == p.grants.value else b.grants == a.grants)
    && (if p.scopes.Some? then b.scopes == p.scopes.value else b.scopes == a.scopes)
    && (if p.allowPassword.Some? then b.allowPassword == p.allowPassword.value else b.allowPassword == a.allowPassword)
    && (if p.secretHash.Some? then b.secretHash == p.secretHash.value else b.secretHash == a.secretHash)
  }

  /** A patch of a known client changes its row to what it says and nothing else, and never fails. */
  lemma PatchedClient(s: State, c: nat, p: ClientPatch)
    ensures var out := PatchClient(s, c, p);
            if c >= |s.clients| then out == Outcome(s, Refused(NotFound))
            else
              && out.reply == Done && |out.state.clients| == |s.clients|
              && PatchedClientRow(s.clients[c], out.state.clients[c], p)
              && out.state == s.(clients := s.clients[c := out.state.clients[c]])
  {
  }
}
