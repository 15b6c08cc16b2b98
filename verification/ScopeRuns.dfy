/** Scope stability over whole runs: the scope string fixed at code registration or first issue is
    carried through code exchange and any number of refreshes. */
module ScopeRuns {
  import opened Text
  import opened Scopes
  import opened Store
  import opened Steps
  import opened Machine
  import opened Effects
  import opened Chains
  import opened Codes

  /** Client `c` has the same list of allowed scopes in every state of the run, up to its last. */
  predicate ScopesFixed(cfg: Config, s: State, es: seq<Event>, c: nat, allowed: seq<string>)
    decreases |es|
  {
    && c < |s.clients| && s.clients[c].scopes == allowed
    && (es == [] || ScopesFixed(cfg, Next(cfg, s, es[0]), es[1..], c, allowed))
  }

  lemma RegrantedIsCarried(a: string, b: string, allowed: seq<string>)
    requires StableList(allowed) && GrantedUnder(a, allowed) && Regranted(a, allowed, b)
    ensures Carried(a, b, allowed)
  {
    var requested, roles :| a == UserScope(requested, allowed, roles);
    hide UserScope, StableList, WithAdmin;
    StableRegrant(requested, allowed, roles, {});
    StableRegrant(requested, allowed, roles, {ADMIN});
  }

  lemma RegrantedIsGranted(a: string, b: string, allowed: seq<string>)
    requires Regranted(a, allowed, b)
    ensures GrantedUnder(b, allowed)
  {
  }

  /** A scope granted under a stable list is carried. */
  ghost predicate CarriesIfStable(a: string, b: string, allowed: seq<string>) {
    StableList(allowed) && GrantedUnder(a, allowed) ==> Carried(a, b, allowed)
  }

  /** Rows of client `c` from position `n` on, and codes from position `m` on, were granted under the list;
      and every such row carries the scope of the row or the code it stems from, if that was. */
  ghost predicate RowCarries(s: State, j: nat, c: nat, allowed: seq<string>)
    requires j < |s.refresh| && |s.births| == |s.refresh|
  {
    s.refresh[j].client == c ==>
      && GrantedUnder(s.refresh[j].scope, allowed)
      && match s.births[j].origin
         case FromRotation(p) => p < j && CarriesIfStable(s.refresh[p].scope, s.refresh[j].scope, allowed)
         case FromCode(k, _, _) => k < |s.codes| && CarriesIfStable(s.codes[k].scope, s.refresh[j].scope, allowed)
         case _ => true
  }

  ghost predicate ScopesCarried(s: State, c: nat, allowed: seq<string>, n: nat, m: nat) {
    && |s.births| == |s.refresh|
    && (forall j | n <= j < |s.refresh| :: RowCarries(s, j, c, allowed))
    && (forall k | m <= k < |s.codes| && s.codes[k].client == c :: GrantedUnder(s.codes[k].scope, allowed))
  }

  lemma OldRowCarries(s: State, t: State, j: nat, c: nat, allowed: seq<string>)
    requires |s.births| == |s.refresh| && |t.births| == |t.refresh| && j < |s.refresh|
    requires TableEvolves(s, t) && CodeTableEvolves(s, t) && RowCarries(s, j, c, allowed)
    ensures RowCarries(t, j, c, allowed)
  {
    assert RowEvolves(s.refresh[j], t.refresh[j]);
    assert t.births[j] == t.births[..|s.births|][j];
    if s.refresh[j].client == c {
      match s.births[j].origin {
        case FromRotation(p) => assert RowEvolves(s.refresh[p], t.refresh[p]);
        case FromCode(k, _, _) => assert CodeEvolves(s.codes[k], t.codes[k]);
        case _ =>
      }
    }
  }

  lemma IssuedRowCarries(cfg: Config, s: State, t: State, effect: Effect, c: nat, allowed: seq<string>)
    requires effect.Issues? && Did(cfg, s, t, effect) && CodeTableEvolves(s, t)
    requires c < |s.clients| && s.clients[c].scopes == allowed
    requires |t.births| == |t.refresh| == |s.refresh| + 1 && |s.births| == |s.refresh|
    ensures RowCarries(t, |s.refresh|, c, allowed)
  {
    hide GrantedUnder, Carried, Regranted, AuditMatches, NewHash, StableList;
    assert t.births[|s.refresh|] == effect.birth && t.refresh[|s.refresh|] == effect.row;
    if effect.birth.origin.FromCode? && effect.row.client == c {
      var k := effect.birth.origin.code;
      assert CodeEvolves(s.codes[k], t.codes[k]);
      if StableList(allowed) && GrantedUnder(s.codes[k].scope, allowed) {
        RegrantedIsCarried(s.codes[k].scope, effect.row.scope, allowed);
      }
    }
  }

  lemma RotatedRowCarries(cfg: Config, s: State, t: State, effect: Effect, c: nat, allowed: seq<string>)
    requires Forest(cfg, s) && effect.Rotates? && Did(cfg, s, t, effect)
    requires c < |s.clients| && s.clients[c].scopes == allowed
    requires |t.births| == |t.refresh|
    ensures RowCarries(t, |s.refresh|, c, allowed)
  {
    hide GrantedUnder, Carried, AuditMatches, NewHash, StableList;
    var was := s.refresh[effect.i];
    assert RowOk(cfg, s, effect.i);
    if effect.row.client == c {
      RegrantedIsGranted(was.scope, effect.row.scope, allowed);
      if StableList(allowed) && GrantedUnder(was.scope, allowed) {
        RegrantedIsCarried(was.scope, effect.row.scope, allowed);
      }
    }
  }

  lemma NewRowCarries(cfg: Config, s: State, t: State, effect: Effect, onCodes: CodeEffect, c: nat,
                      allowed: seq<string>)
    requires Forest(cfg, s) && Did(cfg, s, t, effect) && CodeDid(cfg, s, t, onCodes)
    requires c < |s.clients| && s.clients[c].scopes == allowed
    requires |t.births| == |t.refresh| && CodeTableEvolves(s, t)
    requires |t.refresh| > |s.refresh|
    ensures RowCarries(t, |s.refresh|, c, allowed)
  {
    hide RowOk, RowCarries, GrantedUnder, Regranted, AuditMatches, NewHash, StableList;
    if effect.Issues? {
      IssuedRowCarries(cfg, s, t, effect, c, allowed);
    } else {
      RotatedRowCarries(cfg, s, t, effect, c, allowed);
    }
  }

  lemma ScopesCarriedEffect(cfg: Config, s: State, t: State, effect: Effect, onCodes: CodeEffect, c: nat,
                            allowed: seq<string>, n: nat, m: nat)
    requires Forest(cfg, s) && Did(cfg, s, t, effect) && CodeDid(cfg, s, t, onCodes)
    requires c < |s.clients| && s.clients[c].scopes == allowed
    requires Forest(cfg, t) && TableEvolves(s, t) && CodeTableEvolves(s, t)
    requires ScopesCarried(s, c, allowed, n, m)
    ensures ScopesCarried(t, c, allowed, n, m)
  {
    forall j | n <= j < |t.refresh| ensures RowCarries(t, j, c, allowed) {
      if j < |s.refresh| {
        OldRowCarries(s, t, j, c, allowed);
      } else {
        assert j == |s.refresh|;
        NewRowCarries(cfg, s, t, effect, onCodes, c, allowed);
      }
    }
    forall k | m <= k < |t.codes| && t.codes[k].client == c ensures GrantedUnder(t.codes[k].scope, allowed) {
      if k < |s.codes| {
        assert CodeEvolves(s.codes[k], t.codes[k]);
      }
    }
  }

  lemma {:induction false} ScopesCarriedRun(cfg: Config, s: State, es: seq<Event>, c: nat, allowed: seq<string>,
                                            n: nat, m: nat)
    requires Forest(cfg, s) && ScopesFixed(cfg, s, es, c, allowed)
    requires ScopesCarried(s, c, allowed, n, m)
    ensures ScopesCarried(Run(cfg, s, es), c, allowed, n, m)
    decreases |es|
  {
    if es != [] {
      var next := Next(cfg, s, es[0]);
      var effect := StepEffect(cfg, s, es[0]);
      var onCodes := StepCodeEffect(cfg, s, es[0]);
      ForestStep(cfg, s, es[0]);
      StepEvolves(cfg, s, es[0]);
      CodesEvolveStep(cfg, s, es[0]);
      ScopesCarriedEffect(cfg, s, next, effect, onCodes, c, allowed, n, m);
      ScopesCarriedRun(cfg, next, es[1..], c, allowed, n, m);
    }
  }

  /** Along a path whose links are all at or after position `n`, the scope is carried. */
  lemma {:induction false} PathCarries(cfg: Config, t: State, c: nat, allowed: seq<string>, n: nat, m: nat, i: nat,
                                       j: nat)
    requires Forest(cfg, t) && ScopesCarried(t, c, allowed, n, m) && StableList(allowed)
    requires i < |t.refresh| && j < |t.refresh| && Reaches(t.refresh, i, j)
    requires t.refresh[i].client == c && GrantedUnder(t.refresh[i].scope, allowed)
    requires Succ(t.refresh, i).Some? ==> Succ(t.refresh, i).value >= n
    ensures Carried(t.refresh[i].scope, t.refresh[j].scope, allowed)
    decreases |t.refresh| - i
  {
    if i != j {
      var k := Succ(t.refresh, i).value;
      assert RowOk(cfg, t, i) && RowCarries(t, k, c, allowed);
      PathCarries(cfg, t, c, allowed, n, m, k, j);
      CarriedCompose(t.refresh[i].scope, t.refresh[k].scope, t.refresh[j].scope, allowed);
    }
  }

  /** Scope stability of refresh tokens. While the allowed list of its client stands, every row that a
      still unreplaced row is rotated into carries its scope string exactly, or has gained `admin`;
      role changes of any kind in between make no other difference. */
  lemma {:induction false} RefreshScopeStable(cfg: Config, s: State, es: seq<Event>, c: nat, allowed: seq<string>,
                                              i: nat, j: nat)
    requires Forest(cfg, s) && ScopesFixed(cfg, s, es, c, allowed) && StableList(allowed)
    requires i < |s.refresh| && s.refresh[i].client == c && s.refresh[i].replacedBy == None
    requires GrantedUnder(s.refresh[i].scope, allowed)
    ensures var t := Run(cfg, s, es);
            i < |t.refresh| && (j < |t.refresh| && Reaches(t.refresh, i, j)
                ==> Carried(s.refresh[i].scope, t.refresh[j].scope, allowed))
  {
    hide Step;
    var t := Run(cfg, s, es);
    ForestRun(cfg, s, es);
    RunEvolves(cfg, s, es);
    ScopesCarriedRun(cfg, s, es, c, allowed, |s.refresh|, |s.codes|);
    assert RowEvolves(s.refresh[i], t.refresh[i]);
    if j < |t.refresh| && Reaches(t.refresh, i, j) {
      PathCarries(cfg, t, c, allowed, |s.refresh|, |s.codes|, i, j);
    }
  }

  /** Row `root` was born from code `k`. */
  predicate BornFrom(t: State, root: nat, k: nat) {
    root < |t.births| && t.births[root].origin.FromCode? && t.births[root].origin.code == k
  }

  lemma OldRootMeansConsumed(cfg: Config, s: State, root: nat, k: nat)
    requires CodesBound(cfg, s) && BornFrom(s, root, k)
    ensures k < |s.codes| && s.codes[k].consumedAt.Some?
  {
    assert RootOk(cfg, s, root);
  }

  /** Scope stability of codes. While the allowed list of its client stands, the first refresh row of a
      code and every row it is rotated into carry the scope string fixed at registration exactly, or
      have gained `admin`. */
  lemma {:induction false} CodeScopeStable(cfg: Config, s: State, es: seq<Event>, c: nat, allowed: seq<string>, k: nat,
                                           root: nat, j: nat)
    requires Forest(cfg, s) && CodesBound(cfg, s) && ScopesFixed(cfg, s, es, c, allowed) && StableList(allowed)
    requires k < |s.codes| && s.codes[k].client == c && s.codes[k].consumedAt == None
    requires GrantedUnder(s.codes[k].scope, allowed)
    requires root < |Run(cfg, s, es).refresh| && BornFrom(Run(cfg, s, es), root, k)
    ensures var t := Run(cfg, s, es);
            j < |t.refresh| && Reaches(t.refresh, root, j) ==> Carried(s.codes[k].scope, t.refresh[j].scope, allowed)
  {
    hide Step;
    var t := Run(cfg, s, es);
    ForestRun(cfg, s, es);
    CodesBoundRun(cfg, s, es);
    RunEvolves(cfg, s, es);
    CodesEvolve(cfg, s, es);
    ScopesCarriedRun(cfg, s, es, c, allowed, |s.refresh|, |s.codes|);
    if root < |s.births| {
      assert t.births[root] == t.births[..|s.births|][root];
      OldRootMeansConsumed(cfg, s, root, k);
    } else if j < |t.refresh| && Reaches(t.refresh, root, j) {
      assert RootOk(cfg, t, root) && CodeEvolves(s.codes[k], t.codes[k]);
      assert RowCarries(t, root, c, allowed);
      PathCarries(cfg, t, c, allowed, |s.refresh|, |s.codes|, root, j);
      CarriedCompose(s.codes[k].scope, t.refresh[root].scope, t.refresh[j].scope, allowed);
    }
  }

  /** What is registered or issued while the allowed list of the client stands was granted under it, so
      that the two stability results apply from then on. */
  lemma {:induction false} NewScopesGranted(cfg: Config, s: State, es: seq<Event>, c: nat, allowed: seq<string>)
    requires Forest(cfg, s) && ScopesFixed(cfg, s, es, c, allowed)
    ensures var t := Run(cfg, s, es);
            && (forall j | |s.refresh| <= j < |t.refresh| && t.refresh[j].client == c
                :: GrantedUnder(t.refresh[j].scope, allowed))
            && (forall k | |s.codes| <= k < |t.codes| && t.codes[k].client == c
                :: GrantedUnder(t.codes[k].scope, allowed))
  {
    hide Step;
    ScopesCarriedRun(cfg, s, es, c, allowed, |s.refresh|, |s.codes|);
    var t := Run(cfg, s, es);
    forall j | |s.refresh| <= j < |t.refresh| && t.refresh[j].client == c
      ensures GrantedUnder(t.refresh[j].scope, allowed)
    {
      assert RowCarries(t, j, c, allowed);
    }
  }

  lemma GrantedIsCanonical(scope: string, allowed: seq<string>)
    requires DefaultTokens(allowed) && GrantedUnder(scope, allowed)
    ensures Canonical(scope, allowed)
  {
    var requested, roles :| scope == UserScope(requested, allowed, roles);
    UserScopeCanonical(requested, allowed, roles);
  }

  /** If the default grant of the list consists of tokens, these scopes are canonical as well. */
  lemma {:induction false} NewScopesCanonical(cfg: Config, s: State, es: seq<Event>, c: nat, allowed: seq<string>)
    requires Forest(cfg, s) && ScopesFixed(cfg, s, es, c, allowed) && DefaultTokens(allowed)
    ensures var t := Run(cfg, s, es);
            && (forall j | |s.refresh| <= j < |t.refresh| && t.refresh[j].client == c
                :: Canonical(t.refresh[j].scope, allowed))
            && (forall k | |s.codes| <= k < |t.codes| && t.codes[k].client == c :: Canonical(t.codes[k].scope, allowed))
  {
    NewScopesGranted(cfg, s, es, c, allowed);
    var t := Run(cfg, s, es);
    forall j | |s.refresh| <= j < |t.refresh| && t.refresh[j].client == c
      ensures Canonical(t.refresh[j].scope, allowed)
    {
      assert GrantedUnder(t.refresh[j].scope, allowed);
      GrantedIsCanonical(t.refresh[j].scope, allowed);
    }
    forall k | |s.codes| <= k < |t.codes| && t.codes[k].client == c ensures Canonical(t.codes[k].scope, allowed) {
      assert GrantedUnder(t.codes[k].scope, allowed);
      GrantedIsCanonical(t.codes[k].scope, allowed);
    }
  }
}
