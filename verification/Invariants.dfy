/** Everything that holds in every reachable state, in one place. */
module Invariants {
  import opened Text
  import opened Store
  import opened Machine
  import opened Effects
  import opened Chains
  import opened Codes
  import opened Ledger
  import opened Lockout
  import opened Emails
  import opened Federation
  import opened Clients

  predicate Consistent(cfg: Config, s: State) {
    && Forest(cfg, s) && CodesBound(cfg, s) && Balanced(s) && RotationsCounted(s)
    && LocksOk(s) && EmailsOk(cfg, s) && LinksOk(s) && DistinctIds(s.clients)
  }

  lemma ConsistentStep(cfg: Config, s: State, e: Event)
    requires CaseTableOk(cfg.lower) && Consistent(cfg, s)
    ensures Consistent(cfg, Next(cfg, s, e))
  {
    var t := Next(cfg, s, e);
    var effect := StepEffect(cfg, s, e);
    var emails := StepEmails(cfg, s, e);
    ForestStep(cfg, s, e);
    CodesBoundStep(cfg, s, e);
    BalancedEffect(cfg, s, t, effect);
    RotationsCountedEffect(cfg, s, t, effect);
    LocksOkStep(cfg, s, e);
    EmailsOkEffect(cfg, s, t, emails);
    StepLink(cfg, s, e);
    LinksOkEvent(cfg, s, e, t);
    StepIds(cfg, s, e);
  }

  lemma {:induction false} ConsistentRun(cfg: Config, s: State, es: seq<Event>)
    requires CaseTableOk(cfg.lower) && Consistent(cfg, s)
    ensures Consistent(cfg, Run(cfg, s, es))
    decreases |es|
  {
    if es != [] {
      ConsistentStep(cfg, s, es[0]);
      ConsistentRun(cfg, Next(cfg, s, es[0]), es[1..]);
    }
  }

  /** The capstone: whatever requests, admin edits and restarts follow an empty database, in whatever
      order, all invariants hold together. */
  lemma {:induction false} ReachableConsistent(cfg: Config, es: seq<Event>)
    requires CaseTableOk(cfg.lower)
    ensures Consistent(cfg, Run(cfg, EMPTY, es))
  {
    ConsistentRun(cfg, EMPTY, es);
  }
}
