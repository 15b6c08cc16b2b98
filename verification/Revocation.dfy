/** Revoking a refresh token (RFC 7009): it takes effect at once, for good, and ends the token's family. */
module Revocation {
  import opened Text
  import opened Store
  import opened Steps
  import opened Machine
  import opened Chains
  import opened Clients
  import opened Answers
  import Introspection

  /** What a revocation comes to: the row of the token is revoked from now on, or stays revoked since when it
      was; an empty text or one that is no row's token changes nothing. The reply tells nothing. */
  lemma RevokeExactly(cfg: Config, s: State, token: string)
    requires Forest(cfg, s)
    ensures var out := Step(cfg, s, RevokeRequest(token));
            && out.reply == Done
            && (token == "" || (forall i | 0 <= i < |s.refresh| :: s.refresh[i].hash != cfg.sha(token)) ==>
                  out.state == s)
            && forall i | 0 <= i < |s.refresh| && token != "" && s.refresh[i].hash == cfg.sha(token) ::
                 var since := if s.refresh[i].revokedAt.Some? then s.refresh[i].revokedAt else Some(s.now);
                 out.state == s.(refresh := s.refresh[i := s.refresh[i].(revokedAt := since)])
  {
    forall i | 0 <= i < |s.refresh| && s.refresh[i].hash == cfg.sha(token)
      ensures FindRefresh(s.refresh, cfg.sha(token)) == Some(i)
      ensures s.refresh[i].revokedAt.Some?
          ==> s == s.(refresh := s.refresh[i := s.refresh[i].(revokedAt := s.refresh[i].revokedAt)])
    {
      RowOfToken(cfg, s, token, i);
      assert s.refresh[i := s.refresh[i].(revokedAt := s.refresh[i].revokedAt)] == s.refresh;
    }
    hide Forest, FindRefresh;
  }

  /** The text is the token of row `i`. */
  predicate TokenOf(cfg: Config, s: State, token: string, i: nat) {
    token != "" && i < |s.refresh| && s.refresh[i].hash == cfg.sha(token)
  }

  lemma RevokedRow(cfg: Config, s: State, token: string, i: nat)
    requires Forest(cfg, s) && TokenOf(cfg, s, token, i)
    ensures var m := Next(cfg, s, RevokeRequest(token));
            && Forest(cfg, m) && m.now == s.now && TokenOf(cfg, m, token, i) && m.refresh[i].revokedAt.Some?
            && m.refresh[i].replacedBy == s.refresh[i].replacedBy
  {
    RevokeExactly(cfg, s, token);
    ForestStep(cfg, s, RevokeRequest(token));
    hide Step, Forest;
  }

  /** A revoked token is dead in every continuation: introspection reports it inactive under every hint, and
      whoever presents it gets an error and changes nothing. */
  lemma {:induction false} RevokedForGood(cfg: Config, s: State, token: string, i: nat, es: seq<Event>, hint: string,
                                          creds: Creds, raw: string)
    requires Forest(cfg, s) && DistinctIds(s.clients) && TokenOf(cfg, s, token, i)
    ensures var t := Run(cfg, Next(cfg, s, RevokeRequest(token)), es);
            && Introspection.Introspect(cfg, t, Introspection.Opaque(token), hint) == Introspection.Inactive
            && var out := Step(cfg, t, TokenRequest(creds, RefreshToken(token, raw)));
            out.reply.Refused? && out.state == t
  {
    var m := Next(cfg, s, RevokeRequest(token));
    var t := Run(cfg, m, es);
    RevokedRow(cfg, s, token, i);
    StepIds(cfg, s, RevokeRequest(token));
    ForestRun(cfg, m, es);
    RunEvolves(cfg, m, es);
    DistinctIdsRun(cfg, m, es);
    assert RowEvolves(m.refresh[i], t.refresh[i]);
    Introspection.IntrospectExactly(cfg, t, Introspection.Opaque(token), hint);
    RowOfToken(cfg, t, token, i);
    RevokedIsRefused(cfg, t, token, i, creds, raw);
  }

  lemma RevokedIsRefused(cfg: Config, t: State, token: string, i: nat, creds: Creds, raw: string)
    requires Forest(cfg, t) && DistinctIds(t.clients) && TokenOf(cfg, t, token, i) && t.refresh[i].revokedAt.Some?
    ensures var out := Step(cfg, t, TokenRequest(creds, RefreshToken(token, raw)));
            out.reply.Refused? && out.state == t
  {
    RowOfToken(cfg, t, token, i);
    var client := AuthenticateClient(cfg, t, creds);
    if client.Some? {
      AuthenticatedExactly(cfg, t, creds, client.value);
      RefreshOf(cfg, t, creds, token, raw, client.value, i, t.refresh[i].user.value);
      hide GrantRefresh, Proves, Forest;
    } else {
      hide GrantRefresh, Proves, Forest;
    }
  }

  /** Revoking the unrevoked token of a family, which is its newest, ends the family: no row of it is live in
      any continuation, and none is added. */
  lemma {:induction false} RevocationEndsFamily(cfg: Config, s: State, token: string, i: nat, es: seq<Event>)
    requires Forest(cfg, s) && TokenOf(cfg, s, token, i) && s.refresh[i].revokedAt == None
    ensures ChainDead(Run(cfg, Next(cfg, s, RevokeRequest(token)), es), i, i)
  {
    var m := Next(cfg, s, RevokeRequest(token));
    UnrevokedIsTail(cfg, s, i);
    RevokedRow(cfg, s, token, i);
    assert Tail(m.refresh, i) == i;
    DeadChainStaysDead(cfg, m, es, i);
  }
}
