/** All or nothing: what a failing worker call or manual retry leaves behind, among any steps of other agents. */
module Failures {
  import opened Options
  import opened Tables
  import opened Replay
  import opened Pipeline
  import opened Safety
  import opened Runs
  import opened Attempts

  lemma {:induction false} OthersLeaveAgent(cfg: Config, s: Sys, acts: seq<Action>, a: AgentId)
    requires a in s.agents && ByOthers(acts, a)
    ensures a in Exec(cfg, s, acts).agents && Exec(cfg, s, acts).agents[a] == s.agents[a]
  {
    if acts == [] {
    } else {
      OthersLeaveAgent(cfg, s, acts[..|acts| - 1], a);
    }
  }

  /** How a holder ends after its classification or its persist has failed. */
  function FailureOf(at: Agent, a: AgentId, error: string): Action {
    if at.Working? then MarkFailure(a, error) else RecordRetryFailure(a, error)
  }

  /**
   * All or nothing: agent a holds a row, others take any steps, and a's call fails. The entity and event tables are
   * then what the persists of the others alone made of them. The row is charged for what the others did to it and, for
   * a worker, once more; it is pending, or failed when a worker has used up its budget. No other row is touched.
   */
  lemma FailureLeavesTables(cfg: Config, s: Sys, a: AgentId, others: seq<Action>, error: string)
    requires Inv(s) && a in s.agents && s.agents[a].Holder() && ByOthers(others, a)
    requires s.agents[a].raw !in Locked(Exec(cfg, s, others).agents)
    ensures var at, r := s.agents[a], s.agents[a].raw;
            var before, after := Exec(cfg, s, others), Exec(cfg, s, others + [FailureOf(at, a, error)]);
            && a !in after.agents
            && (forall kind :: after.db.StoreOf(kind) == Replayed(s.db.StoreOf(kind), kind, Trace(cfg, s, others)))
            && r in s.db.raws && r in before.db.raws && r in after.db.raws
            && after.db.raws == before.db.raws[r := after.db.raws[r]]
            && after.db.raws[r].SameIdentity(before.db.raws[r])
            && after.db.raws[r].attempts
                 == s.db.raws[r].attempts + Charges(cfg, s, others, r) + (if at.Working? then 1 else 0)
            && after.db.raws[r].lastError == Some(error)
            && (after.db.raws[r].status == Pending || after.db.raws[r].status == Failed)
            && (after.db.raws[r].status == Failed <==> at.Working? && after.db.raws[r].attempts >= cfg.maxAttempts)
  {
    var r, fail := s.agents[a].raw, FailureOf(s.agents[a], a, error);
    assert AgentOk(s.db.raws, s.agents[a]);
    AttemptsGrowByCharges(cfg, s, others, r);
    OthersLeaveAgent(cfg, s, others, a);
    var before := Exec(cfg, s, others);
    assert (others + [fail])[..|others|] == others;
    assert Enabled(cfg, before, fail);
    forall kind
      ensures Next(cfg, before, fail).db.StoreOf(kind) == Replayed(s.db.StoreOf(kind), kind, Trace(cfg, s, others))
    {
      TablesAreReplay(cfg, s, others, kind);
    }
  }
}
