/** The rotation forest of refresh tokens, over whole runs. */
module Chains {
  import opened Text
  import opened Store
  import opened Machine
  import opened Effects

  // ---------------------------------------------------------------- chains

  /** The row that row `i` was replaced by. */
  function Succ(rows: seq<Refresh>, i: nat): Option<nat>
    requires i < |rows|
  {
    match rows[i].replacedBy
    case Some(j) => if i < j < |rows| then Some(j) else None
    case None => None
  }

  /** The last row of the chain through row `i`. */
  function Tail(rows: seq<Refresh>, i: nat): (t: nat)
    requires i < |rows|
    ensures i <= t < |rows| && Succ(rows, t) == None
    decreases |rows| - i
  {
    match Succ(rows, i) case None => i case Some(j) => Tail(rows, j)
  }

  /** Row `j` is row `i` after some number of rotations. */
  predicate Reaches(rows: seq<Refresh>, i: nat, j: nat)
    requires i < |rows| && j < |rows|
    decreases |rows| - i
  {
    i == j || match Succ(rows, i) case None => false case Some(k) => Reaches(rows, k, j)
  }

  predicate SameChain(rows: seq<Refresh>, i: nat, j: nat)
    requires i < |rows| && j < |rows|
  {
    Tail(rows, i) == Tail(rows, j)
  }

  // ---------------------------------------------------------------- the invariant

  /** A replaced row is revoked; its replacement is a later row of the same user and client, born from
      it while it was live. */
  predicate LinkOk(s: State, i: nat, j: nat)
    requires i < |s.refresh| && |s.births| == |s.refresh|
  {
    && i < j < |s.refresh| && s.births[j].origin == FromRotation(i)
    && s.refresh[i].revokedAt == Some(s.births[j].at)
    && s.refresh[j].user == s.refresh[i].user && s.refresh[j].client == s.refresh[i].client
    && s.births[i].at <= s.births[j].at <= s.refresh[i].expiresAt
  }

  predicate RowOk(cfg: Config, s: State, i: nat)
    requires i < |s.refresh| && |s.births| == |s.refresh|
  {
    var row, birth := s.refresh[i], s.births[i];
    && row.user.Some? && row.user.value < |s.users| && row.client < |s.clients|
    && birth.at <= s.now && row.expiresAt == birth.at + cfg.refreshLife
    && (row.replacedBy.Some? ==> LinkOk(s, i, row.replacedBy.value))
    && (birth.origin.FromRotation? ==>
          birth.origin.previous < i && s.refresh[birth.origin.previous].replacedBy == Some(i))
  }

  /** The rotation forest. */
  predicate Forest(cfg: Config, s: State) {
    && |s.births| == |s.refresh|
    && (forall i | 0 <= i < |s.refresh| :: RowOk(cfg, s, i))
    && (forall i, j | 0 <= i < j < |s.refresh| :: s.refresh[i].hash != s.refresh[j].hash)
  }

  lemma OldRowOk(cfg: Config, s: State, t: State, effect: Effect, i: nat)
    requires Forest(cfg, s) && Did(cfg, s, t, effect) && i < |s.refresh|
    ensures |t.births| == |t.refresh| && i < |t.refresh| && RowOk(cfg, t, i)
  {
    hide Regranted, LoginScopeOk, AuditMatches, NewHash;
    assert RowOk(cfg, s, i);
    if s.births[i].origin.FromRotation? {
      assert RowOk(cfg, s, s.births[i].origin.previous);
    }
  }

  lemma NewRowOk(cfg: Config, s: State, t: State, effect: Effect)
    requires Forest(cfg, s) && Did(cfg, s, t, effect) && |t.refresh| > |s.refresh|
    ensures |t.births| == |t.refresh| == |s.refresh| + 1 && RowOk(cfg, t, |s.refresh|)
  {
    hide Regranted, LoginScopeOk, NewHash;
    if effect.Rotates? {
      assert RowOk(cfg, s, effect.i);
    }
  }

  lemma ForestEffect(cfg: Config, s: State, t: State, effect: Effect)
    requires Forest(cfg, s) && Did(cfg, s, t, effect)
    ensures Forest(cfg, t)
  {
    hide RowOk, Regranted, LoginScopeOk, AuditMatches;
    forall i | 0 <= i < |t.refresh| ensures RowOk(cfg, t, i) {
      if i < |s.refresh| {
        OldRowOk(cfg, s, t, effect, i);
      } else {
        NewRowOk(cfg, s, t, effect);
      }
    }
  }

  lemma ForestStep(cfg: Config, s: State, e: Event)
    requires Forest(cfg, s)
    ensures Forest(cfg, Next(cfg, s, e))
  {
    var effect := StepEffect(cfg, s, e);
    ForestEffect(cfg, s, Next(cfg, s, e), effect);
  }

  /** Every run keeps the rotation forest. */
  lemma {:induction false} ForestRun(cfg: Config, s: State, es: seq<Event>)
    requires Forest(cfg, s)
    ensures Forest(cfg, Run(cfg, s, es))
    decreases |es|
  {
    if es != [] {
      ForestStep(cfg, s, es[0]);
      ForestRun(cfg, Next(cfg, s, es[0]), es[1..]);
    }
  }

  /** In every state reachable from an empty database, replacement forms a forest. */
  lemma ReachableForest(cfg: Config, es: seq<Event>)
    ensures Forest(cfg, Run(cfg, EMPTY, es))
  {
    ForestRun(cfg, EMPTY, es);
  }

  // ---------------------------------------------------------------- shape

  /** No row has two predecessors. */
  lemma OnePredecessor(cfg: Config, s: State, i: nat, k: nat)
    requires Forest(cfg, s) && i < |s.refresh| && k < |s.refresh|
    requires s.refresh[i].replacedBy.Some? && s.refresh[i].replacedBy == s.refresh[k].replacedBy
    ensures i == k
  {
    assert RowOk(cfg, s, i) && RowOk(cfg, s, k);
  }

  lemma {:induction false} ReachesForward(rows: seq<Refresh>, i: nat, j: nat)
    requires i < |rows| && j < |rows| && Reaches(rows, i, j)
    ensures i <= j && SameChain(rows, i, j)
    decreases |rows| - i
  {
    if i != j {
      ReachesForward(rows, Succ(rows, i).value, j);
    }
  }

  lemma {:induction false} ReachesTail(rows: seq<Refresh>, i: nat)
    requires i < |rows|
    ensures Reaches(rows, i, Tail(rows, i))
    decreases |rows| - i
  {
    if Succ(rows, i).Some? {
      ReachesTail(rows, Succ(rows, i).value);
    }
  }

  /** Replacement never runs in a circle. */
  lemma Acyclic(cfg: Config, s: State, i: nat, j: nat)
    requires Forest(cfg, s) && i < |s.refresh| && j < |s.refresh|
    requires Reaches(s.refresh, i, j) && Reaches(s.refresh, j, i)
    ensures i == j
    ensures s.refresh[i].replacedBy.Some? ==> s.refresh[i].replacedBy == Succ(s.refresh, i)
  {
    ReachesForward(s.refresh, i, j);
    ReachesForward(s.refresh, j, i);
    assert RowOk(cfg, s, i);
  }

  /** Along a chain the user and the client stay the same, and neither the time of minting nor the
      expiry goes back. */
  lemma {:induction false} ReachesKeeps(cfg: Config, s: State, i: nat, j: nat)
    requires Forest(cfg, s) && i < |s.refresh| && j < |s.refresh| && Reaches(s.refresh, i, j)
    ensures s.refresh[j].user == s.refresh[i].user && s.refresh[j].client == s.refresh[i].client
    ensures s.births[i].at <= s.births[j].at && s.refresh[i].expiresAt <= s.refresh[j].expiresAt
    decreases |s.refresh| - i
  {
    assert RowOk(cfg, s, i);
    if i != j {
      assert RowOk(cfg, s, Succ(s.refresh, i).value);
      ReachesKeeps(cfg, s, Succ(s.refresh, i).value, j);
    }
  }

  /** A chain has one user, never none, and one client. */
  lemma ChainOwner(cfg: Config, s: State, i: nat, j: nat)
    requires Forest(cfg, s) && i < |s.refresh| && j < |s.refresh| && SameChain(s.refresh, i, j)
    ensures s.refresh[i].user == s.refresh[j].user && s.refresh[i].user.Some?
    ensures s.refresh[i].client == s.refresh[j].client
  {
    var t := Tail(s.refresh, i);
    ReachesTail(s.refresh, i);
    ReachesTail(s.refresh, j);
    ReachesKeeps(cfg, s, i, t);
    ReachesKeeps(cfg, s, j, t);
    assert RowOk(cfg, s, i);
  }

  /** The only row of a chain that may be unrevoked is its tail. */
  lemma UnrevokedIsTail(cfg: Config, s: State, i: nat)
    requires Forest(cfg, s) && i < |s.refresh| && s.refresh[i].revokedAt == None
    ensures Tail(s.refresh, i) == i && s.refresh[i].replacedBy == None
  {
    assert RowOk(cfg, s, i);
  }

  /** Each chain has at most one unrevoked row. */
  lemma OneUnrevokedPerChain(cfg: Config, s: State, i: nat, j: nat)
    requires Forest(cfg, s) && i < |s.refresh| && j < |s.refresh| && SameChain(s.refresh, i, j)
    requires s.refresh[i].revokedAt == None && s.refresh[j].revokedAt == None
    ensures i == j
  {
    UnrevokedIsTail(cfg, s, i);
    UnrevokedIsTail(cfg, s, j);
  }

  /** A row that is live at some instant was minted at most one refresh lifetime before. */
  lemma LiveIsYoung(cfg: Config, s: State, i: nat)
    requires Forest(cfg, s) && i < |s.refresh| && Live(s.refresh[i], s.now)
    ensures s.births[i].at <= s.now <= s.births[i].at + cfg.refreshLife
  {
    assert RowOk(cfg, s, i);
  }

  // ---------------------------------------------------------------- rows over runs

  /** What a row may turn into: it may be revoked once and replaced once, everything else stands. */
  predicate RowEvolves(a: Refresh, b: Refresh) {
    && b == a.(revokedAt := b.revokedAt, replacedBy := b.replacedBy)
    && (a.revokedAt.Some? ==> b.revokedAt == a.revokedAt)
    && (a.replacedBy.Some? ==> b.replacedBy == a.replacedBy)
    && (b.replacedBy != a.replacedBy ==> a.revokedAt == None)
  }

  predicate TableEvolves(s: State, t: State) {
    && s.now <= t.now && |s.refresh| <= |t.refresh| && |s.births| <= |t.births|
    && s.births == t.births[..|s.births|]
    && (forall i | 0 <= i < |s.refresh| :: RowEvolves(s.refresh[i], t.refresh[i]))
    && (forall i | 0 <= i < |s.refresh| && t.refresh[i].replacedBy.Some? && s.refresh[i].replacedBy == None ::
          s.now <= s.refresh[i].expiresAt && |s.refresh| <= t.refresh[i].replacedBy.value)
  }

  lemma EffectEvolves(cfg: Config, s: State, t: State, effect: Effect)
    requires Forest(cfg, s) && Did(cfg, s, t, effect)
    ensures TableEvolves(s, t)
  {
    if effect.Rotates? {
      assert RowOk(cfg, s, effect.i);
    }
    assert t.births[..|s.births|] == s.births;
  }

  lemma StepEvolves(cfg: Config, s: State, e: Event)
    requires Forest(cfg, s)
    ensures TableEvolves(s, Next(cfg, s, e))
  {
    var effect := StepEffect(cfg, s, e);
    EffectEvolves(cfg, s, Next(cfg, s, e), effect);
  }

  /** `revoked_at` and `replaced_by_id` are write-once and every other column is constant, in every run;
      a row can only be replaced while it is unrevoked and not past its expiry. */
  lemma {:induction false} RunEvolves(cfg: Config, s: State, es: seq<Event>)
    requires Forest(cfg, s)
    ensures TableEvolves(s, Run(cfg, s, es))
    decreases |es|
  {
    if es == [] {
      assert s.births[..|s.births|] == s.births;
    } else {
      var m := Next(cfg, s, es[0]);
      StepEvolves(cfg, s, es[0]);
      ForestStep(cfg, s, es[0]);
      RunEvolves(cfg, m, es[1..]);
      var t := Run(cfg, m, es[1..]);
      assert t.births[..|s.births|] == m.births[..|s.births|];
      forall i | 0 <= i < |s.refresh| ensures RowEvolves(s.refresh[i], t.refresh[i]) {
        assert RowEvolves(s.refresh[i], m.refresh[i]) && RowEvolves(m.refresh[i], t.refresh[i]);
      }
    }
  }

  lemma {:induction false} TailEvolves(s: State, t: State, i: nat)
    requires TableEvolves(s, t) && i < |s.refresh|
    requires t.refresh[Tail(s.refresh, i)].replacedBy == None
    requires forall k | 0 <= k < |s.refresh| && s.refresh[k].replacedBy.Some? ::
               Succ(s.refresh, k) == s.refresh[k].replacedBy
    ensures Tail(t.refresh, i) == Tail(s.refresh, i)
    decreases |s.refresh| - i
  {
    assert RowEvolves(s.refresh[i], t.refresh[i]);
    if Succ(s.refresh, i).Some? {
      assert Succ(t.refresh, i) == Succ(s.refresh, i);
      TailEvolves(s, t, Succ(s.refresh, i).value);
    }
  }

  /** No row of the chain through row `i` is live, and the chain still ends where it ended at `last`. */
  predicate ChainDead(t: State, i: nat, last: nat) {
    && i < |t.refresh| && Tail(t.refresh, i) == last
    && (forall j | 0 <= j < |t.refresh| && SameChain(t.refresh, i, j) :: j <= last && !Live(t.refresh[j], t.now))
  }

  /** The death of a family is permanent: once the tail of a chain is revoked or past its expiry, no
      continuation of the run ever has a live row in that chain, nor adds a row to it. */
  lemma DeadChainStaysDead(cfg: Config, s: State, es: seq<Event>, i: nat)
    requires Forest(cfg, s) && i < |s.refresh|
    requires !Live(s.refresh[Tail(s.refresh, i)], s.now)
    ensures ChainDead(Run(cfg, s, es), i, Tail(s.refresh, i))
  {
    var t, last := Run(cfg, s, es), Tail(s.refresh, i);
    RunEvolves(cfg, s, es);
    ForestRun(cfg, s, es);
    assert RowEvolves(s.refresh[last], t.refresh[last]);
    assert RowOk(cfg, s, last);
    forall k | 0 <= k < |s.refresh| && s.refresh[k].replacedBy.Some?
      ensures Succ(s.refresh, k) == s.refresh[k].replacedBy
    {
      assert RowOk(cfg, s, k);
    }
    TailEvolves(s, t, i);
    forall j | 0 <= j < |t.refresh| && SameChain(t.refresh, i, j) ensures j <= last && !Live(t.refresh[j], t.now) {
      if t.refresh[j].revokedAt == None {
        UnrevokedIsTail(cfg, t, j);
      }
    }
  }

  /** In particular a chain that is not rotated for longer than the refresh lifetime is dead for good. */
  lemma IdleChainDies(cfg: Config, s: State, es: seq<Event>, i: nat)
    requires Forest(cfg, s) && i < |s.refresh|
    requires s.births[Tail(s.refresh, i)].at + cfg.refreshLife < s.now
    ensures ChainDead(Run(cfg, s, es), i, Tail(s.refresh, i))
  {
    assert RowOk(cfg, s, Tail(s.refresh, i));
    DeadChainStaysDead(cfg, s, es, i);
  }
}
