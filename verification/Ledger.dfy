/** Conservation between the tables: the audit log, the refresh rows and the codes add up. */
module Ledger {
  import opened Text
  import opened Store
  import opened Steps
  import opened Machine
  import opened Effects
  import opened Chains
  import opened Codes

  /** The successful entries of the audit log, in order. */
  function Successes(audits: seq<Audit>): seq<Audit> {
    if audits == [] then [] else
      var n := |audits| - 1;
      Successes(audits[..n]) + (if audits[n].success then [audits[n]] else [])
  }

  lemma SuccessesSnoc(audits: seq<Audit>, a: Audit)
    ensures Successes(audits + [a]) == Successes(audits) + (if a.success then [a] else [])
  {
    assert (audits + [a])[..|audits|] == audits;
  }

  /** The k-th refresh row and the k-th successful audit record the same grant. */
  predicate Balanced(s: State) {
    && |Successes(s.audits)| == |s.refresh| == |s.births|
    && (forall k | 0 <= k < |s.refresh| :: EntryOk(s, k))
  }

  predicate EntryOk(s: State, k: nat)
    requires k < |s.refresh| && |Successes(s.audits)| == |s.refresh| == |s.births|
  {
    && s.refresh[k].client < |s.clients|
    && AuditMatches(s, s.refresh[k], s.births[k], Successes(s.audits)[k])
    && (LoginOrigin(s.births[k].origin) || s.births[k].origin.FromRotation?)
  }

  function CountReplaced(rows: seq<Refresh>): nat {
    if rows == [] then 0 else
      var n := |rows| - 1;
      CountReplaced(rows[..n]) + if rows[n].replacedBy.Some? then 1 else 0
  }

  function CountConsumed(codes: seq<Code>): nat {
    if codes == [] then 0 else
      var n := |codes| - 1;
      CountConsumed(codes[..n]) + if codes[n].consumedAt.Some? then 1 else 0
  }

  function BirthMethods(births: seq<Birth>): seq<LoginMethod> {
    if births == [] then [] else
      var n := |births| - 1;
      BirthMethods(births[..n]) + [MethodOf(births[n].origin)]
  }

  lemma {:induction false} CountReplacedUpdate(rows: seq<Refresh>, i: nat, row: Refresh)
    requires i < |rows|
    ensures CountReplaced(rows[i := row]) + (if rows[i].replacedBy.Some? then 1 else 0)
         == CountReplaced(rows) + (if row.replacedBy.Some? then 1 else 0)
  {
    var n := |rows| - 1;
    if i == n {
      assert rows[i := row][..n] == rows[..n];
    } else {
      assert rows[i := row][..n] == rows[..n][i := row];
      CountReplacedUpdate(rows[..n], i, row);
    }
  }

  lemma {:induction false} CountConsumedUpdate(codes: seq<Code>, k: nat, code: Code)
    requires k < |codes|
    ensures CountConsumed(codes[k := code]) + (if codes[k].consumedAt.Some? then 1 else 0)
         == CountConsumed(codes) + (if code.consumedAt.Some? then 1 else 0)
  {
    var n := |codes| - 1;
    if k == n {
      assert codes[k := code][..n] == codes[..n];
    } else {
      assert codes[k := code][..n] == codes[..n][k := code];
      CountConsumedUpdate(codes[..n], k, code);
    }
  }

  // ---------------------------------------------------------------- preservation

  lemma BalancedEffect(cfg: Config, s: State, t: State, effect: Effect)
    requires Balanced(s) && Did(cfg, s, t, effect)
    ensures Balanced(t)
  {
    if effect.Audited? || effect.Issues? || effect.Rotates? {
      SuccessesSnoc(s.audits, effect.audit);
    }
    forall k | 0 <= k < |t.refresh| ensures EntryOk(t, k) {
      if k < |s.refresh| {
        assert EntryOk(s, k);
      }
    }
  }

  /** Replaced rows are counted by the rotations among the births. */
  predicate RotationsCounted(s: State) { CountReplaced(s.refresh) == BirthsBy(s.births, ByRefresh) }

  lemma BirthMethodsSnoc(births: seq<Birth>, b: Birth)
    ensures BirthMethods(births + [b]) == BirthMethods(births) + [MethodOf(b.origin)]
  {
    assert (births + [b])[..|births|] == births;
  }

  lemma CountReplacedSnoc(rows: seq<Refresh>, row: Refresh)
    ensures CountReplaced(rows + [row]) == CountReplaced(rows) + if row.replacedBy.Some? then 1 else 0
  {
    assert (rows + [row])[..|rows|] == rows;
  }

  lemma CountReplacedRotation(rows: seq<Refresh>, i: nat, replaced: Refresh, row: Refresh)
    requires i < |rows| && rows[i].replacedBy == None && replaced.replacedBy.Some? && row.replacedBy == None
    ensures CountReplaced(rows[i := replaced] + [row]) == CountReplaced(rows) + 1
  {
    CountReplacedUpdate(rows, i, replaced);
    CountReplacedSnoc(rows[i := replaced], row);
  }

  function BirthsBy(births: seq<Birth>, how: LoginMethod): nat { multiset(BirthMethods(births))[how] }

  lemma BirthsBySnoc(births: seq<Birth>, birth: Birth, how: LoginMethod)
    ensures BirthsBy(births + [birth], how) == BirthsBy(births, how) + if MethodOf(birth.origin) == how then 1 else 0
  {
    BirthMethodsSnoc(births, birth);
  }

  lemma ReplacedCounted(cfg: Config, s: State, t: State, effect: Effect)
    requires Forest(cfg, s) && Did(cfg, s, t, effect)
    ensures CountReplaced(t.refresh) == CountReplaced(s.refresh) + if effect.Rotates? then 1 else 0
  {
    hide Regranted, LoginScopeOk, AuditMatches, NewHash;
    if effect.Issues? {
      CountReplacedSnoc(s.refresh, effect.row);
    } else if effect.Rotates? {
      assert RowOk(cfg, s, effect.i);
      var replaced := s.refresh[effect.i].(revokedAt := Some(s.now), replacedBy := Some(|s.refresh|));
      CountReplacedRotation(s.refresh, effect.i, replaced, effect.row);
    } else if effect.Revokes? {
      CountReplacedUpdate(s.refresh, effect.i, s.refresh[effect.i].(revokedAt := Some(s.now)));
    }
  }

  lemma RotationsCountedEffect(cfg: Config, s: State, t: State, effect: Effect)
    requires Forest(cfg, s) && RotationsCounted(s) && Did(cfg, s, t, effect)
    ensures RotationsCounted(t)
  {
    hide Forest, BirthMethods, CountReplaced, Regranted, LoginScopeOk, NewHash;
    ReplacedCounted(cfg, s, t, effect);
    if effect.Issues? {
      BirthsBySnoc(s.births, effect.birth, ByRefresh);
    } else if effect.Rotates? {
      BirthsBySnoc(s.births, Birth(s.now, FromRotation(effect.i)), ByRefresh);
    }
  }

  /** How many exchanges of a run were refused as locked. */
  function LockedExchanges(cfg: Config, s: State, es: seq<Event>): nat
    decreases |es|
  {
    if es == [] then 0 else
      (if RefusedAsLocked(cfg, s, es[0]) then 1 else 0) + LockedExchanges(cfg, Next(cfg, s, es[0]), es[1..])
  }

  lemma CountConsumedSnoc(codes: seq<Code>, code: Code)
    ensures CountConsumed(codes + [code]) == CountConsumed(codes) + if code.consumedAt.Some? then 1 else 0
  {
    assert (codes + [code])[..|codes|] == codes;
  }

  /** Consumed codes, minus the births that stem from a code. */
  function Unanswered(s: State): int { CountConsumed(s.codes) - BirthsBy(s.births, ByCode) }

  lemma ConsumedCounted(cfg: Config, s: State, t: State, onCodes: CodeEffect)
    requires CodeDid(cfg, s, t, onCodes)
    ensures CountConsumed(t.codes) == CountConsumed(s.codes) + if onCodes.Spent? || onCodes.Exchanged? then 1 else 0
  {
    match onCodes {
      case Untouched =>
      case Registered(code) => CountConsumedSnoc(s.codes, code);
      case Spent(k) => CountConsumedUpdate(s.codes, k, s.codes[k].(consumedAt := Some(s.now)));
      case Exchanged(k, _, _, _) => CountConsumedUpdate(s.codes, k, s.codes[k].(consumedAt := Some(s.now)));
    }
  }

  lemma CodeBirthsCounted(cfg: Config, s: State, t: State, effect: Effect, onCodes: CodeEffect)
    requires Did(cfg, s, t, effect) && CodeDid(cfg, s, t, onCodes)
    ensures BirthsBy(t.births, ByCode) == BirthsBy(s.births, ByCode) + if onCodes.Exchanged? then 1 else 0
  {
    hide BirthsBy, Regranted, LoginScopeOk, NewHash, AuditMatches;
    if effect.Issues? || effect.Rotates? {
      var birth := if effect.Issues? then effect.birth else Birth(s.now, FromRotation(effect.i));
      assert t.births[|s.births|] == birth;
      BirthsBySnoc(s.births, birth, ByCode);
    } else {
      assert t.births == s.births;
    }
  }

  lemma UnansweredEffect(cfg: Config, s: State, t: State, effect: Effect, onCodes: CodeEffect)
    requires Did(cfg, s, t, effect) && CodeDid(cfg, s, t, onCodes)
    ensures Unanswered(t) == Unanswered(s) + if onCodes.Spent? then 1 else 0
  {
    hide Did, CodeDid, BirthsBy, CountConsumed;
    ConsumedCounted(cfg, s, t, onCodes);
    CodeBirthsCounted(cfg, s, t, effect, onCodes);
  }

  /** Everything the ledger keeps, over a run. */
  lemma {:induction false} LedgerRun(cfg: Config, s: State, es: seq<Event>)
    requires Forest(cfg, s) && Balanced(s) && RotationsCounted(s)
    ensures var t := Run(cfg, s, es);
            Balanced(t) && RotationsCounted(t) && Unanswered(t) == Unanswered(s) + LockedExchanges(cfg, s, es)
    decreases |es|
  {
    if es != [] {
      var m := Next(cfg, s, es[0]);
      var effect := StepEffect(cfg, s, es[0]);
      var onCodes := StepCodeEffect(cfg, s, es[0]);
      BalancedEffect(cfg, s, m, effect);
      RotationsCountedEffect(cfg, s, m, effect);
      UnansweredEffect(cfg, s, m, effect, onCodes);
      ForestStep(cfg, s, es[0]);
      LedgerRun(cfg, m, es[1..]);
    }
  }

  // ---------------------------------------------------------------- the laws

  /** Whose grant it is, and through which client. */
  type Key = (Option<nat>, string)

  function RowKeys(s: State): seq<Key>
    requires forall k | 0 <= k < |s.refresh| :: s.refresh[k].client < |s.clients|
  {
    seq(|s.refresh|, k requires 0 <= k < |s.refresh| => (s.refresh[k].user, s.clients[s.refresh[k].client].clientId))
  }

  function AuditKeys(audits: seq<Audit>): seq<Key> {
    var ok := Successes(audits);
    seq(|ok|, k requires 0 <= k < |ok| => (ok[k].user, ok[k].clientId))
  }

  function AuditMethods(audits: seq<Audit>): seq<LoginMethod> {
    var ok := Successes(audits);
    seq(|ok|, k requires 0 <= k < |ok| => ok[k].loginMethod)
  }

  lemma {:induction false} BirthMethodsAt(births: seq<Birth>)
    ensures |BirthMethods(births)| == |births|
    ensures forall k | 0 <= k < |births| :: BirthMethods(births)[k] == MethodOf(births[k].origin)
  {
    if births != [] {
      BirthMethodsAt(births[..|births| - 1]);
    }
  }

  lemma BalancedMethods(s: State)
    requires Balanced(s)
    ensures AuditMethods(s.audits) == BirthMethods(s.births)
  {
    BirthMethodsAt(s.births);
    forall k | 0 <= k < |s.births| ensures AuditMethods(s.audits)[k] == BirthMethods(s.births)[k] {
      assert EntryOk(s, k);
    }
  }

  /** Refresh rows and successful audits agree entry by entry, hence also in number for every user
      and client. */
  lemma RowsMatchAudits(cfg: Config, es: seq<Event>)
    ensures var t := Run(cfg, EMPTY, es);
            && (forall k | 0 <= k < |t.refresh| :: t.refresh[k].client < |t.clients|)
            && RowKeys(t) == AuditKeys(t.audits)
            && forall key :: multiset(RowKeys(t))[key] == multiset(AuditKeys(t.audits))[key]
  {
    LedgerRun(cfg, EMPTY, es);
    var t := Run(cfg, EMPTY, es);
    forall k | 0 <= k < |t.refresh| ensures t.refresh[k].client < |t.clients| {
      assert EntryOk(t, k);
    }
    forall k | 0 <= k < |t.refresh| ensures RowKeys(t)[k] == AuditKeys(t.audits)[k] {
      assert EntryOk(t, k);
    }
    assert RowKeys(t) == AuditKeys(t.audits);
  }

  /** Replaced rows are as many as successful `refresh_token` audits; the rows that start a chain are
      as many as all other successful audits. */
  lemma ReplacedMatchRefreshAudits(cfg: Config, es: seq<Event>)
    ensures var t := Run(cfg, EMPTY, es);
            && CountReplaced(t.refresh) == multiset(AuditMethods(t.audits))[ByRefresh]
            && |t.refresh| - CountReplaced(t.refresh) ==
                |Successes(t.audits)| - multiset(AuditMethods(t.audits))[ByRefresh]
            && forall k | 0 <= k < |t.births| && k < |Successes(t.audits)| ::
                 t.births[k].origin.FromRotation? <==> Successes(t.audits)[k].loginMethod == ByRefresh
  {
    LedgerRun(cfg, EMPTY, es);
    var t := Run(cfg, EMPTY, es);
    BalancedMethods(t);
    forall k | 0 <= k < |t.births|
      ensures t.births[k].origin.FromRotation? <==> Successes(t.audits)[k].loginMethod == ByRefresh
    {
      assert EntryOk(t, k);
    }
  }

  /** Consumed codes are as many as successful `authorization_code` audits and exchanges refused as
      locked together. */
  lemma ConsumedCodesAccountedFor(cfg: Config, es: seq<Event>)
    ensures var t := Run(cfg, EMPTY, es);
            CountConsumed(t.codes) == multiset(AuditMethods(t.audits))[ByCode] + LockedExchanges(cfg, EMPTY, es)
  {
    LedgerRun(cfg, EMPTY, es);
    BalancedMethods(Run(cfg, EMPTY, es));
  }
}
