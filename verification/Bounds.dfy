/** How many attempts a row can collect, failed rows included. */
module Bounds {
  import opened Tables
  import opened Pipeline
  import opened Safety
  import opened Attempts
  import opened Lease
  import opened Calls

  ghost function Acquisition(cfg: Config, s: Sys, act: Action, r: RawId): nat {
    if act.AcquireRetry? && act.raw == r && Enabled(cfg, s, act) then 1 else 0
  }

  /** The manual retries in the run that acquired the row. */
  ghost function Acquisitions(cfg: Config, s: Sys, acts: seq<Action>, r: RawId): nat {
    if acts == [] then 0
    else
      Acquisitions(cfg, s, acts[..|acts| - 1], r)
      + Acquisition(cfg, Exec(cfg, s, acts[..|acts| - 1]), acts[|acts| - 1], r)
  }

  /** A row has used up at most the budget and two attempts per manual retry, and one less while it can be worked on. */
  predicate Bounded(max: nat, row: RawRow, retries: nat) {
    row.attempts + (if row.status == Pending || row.status == Processing then 1 else 0) <= max + 2 * retries
  }

  lemma NextStaysBounded(cfg: Config, s: Sys, act: Action, r: RawId, n: nat)
    requires cfg.maxAttempts >= 1 && Inv(s) && Exclusive(s)
    requires r in s.db.raws ==> Bounded(cfg.maxAttempts, s.db.raws[r], n)
    requires r in Next(cfg, s, act).db.raws
    ensures Bounded(cfg.maxAttempts, Next(cfg, s, act).db.raws[r], n + Acquisition(cfg, s, act, r))
  {
    if Enabled(cfg, s, act) {
      if act.CommitInsert? || act.CommitClaim? {
        assert AgentOk(s.db.raws, s.agents[act.a]);
      } else if act.MarkFailure? || act.RecordRetryFailure? {
        assert OwnsRow(s, act.a);
      }
    }
  }

  /**
   * Under LEASE without take-over a manual retry costs a row at most two attempts beyond the budget: its own, and one
   * that a worker records after it.
   */
  lemma {:induction false} AttemptsBounded(cfg: Config, clock: int, acts: seq<Action>, r: RawId)
    requires cfg.maxAttempts >= 1 && LeasedRun(cfg, Start(clock), acts) && UncontendedRun(cfg, Start(clock), acts)
    requires r in Exec(cfg, Start(clock), acts).db.raws
    ensures Bounded(cfg.maxAttempts, Exec(cfg, Start(clock), acts).db.raws[r], Acquisitions(cfg, Start(clock), acts, r))
  {
    var init, act := acts[..|acts| - 1], acts[|acts| - 1];
    var s, n := Exec(cfg, Start(clock), init), Acquisitions(cfg, Start(clock), init, r);
    assert forall i :: 0 <= i <= |init| ==> init[..i] == acts[..i];
    if r in s.db.raws {
      AttemptsBounded(cfg, clock, init, r);
    }
    ExclusiveLease(cfg, clock, init);
    Reachable(cfg, clock, init);
    NextStaysBounded(cfg, s, act, r, n);
  }

  lemma {:induction false} NoAcquisitions(cfg: Config, s: Sys, acts: seq<Action>, r: RawId)
    requires NoManualRetry(acts)
    ensures Acquisitions(cfg, s, acts, r) == 0
  {
    if acts == [] {
    } else {
      NoAcquisitions(cfg, s, acts[..|acts| - 1], r);
      assert !acts[|acts| - 1].AcquireRetry?;
    }
  }

  /** In particular workers alone never exceed the maximum, on any row. */
  lemma WorkersNeverExceed(cfg: Config, clock: int, acts: seq<Action>, r: RawId)
    requires cfg.maxAttempts >= 1 && LeasedRun(cfg, Start(clock), acts) && NoManualRetry(acts)
    requires r in Exec(cfg, Start(clock), acts).db.raws
    ensures Exec(cfg, Start(clock), acts).db.raws[r].attempts <= cfg.maxAttempts
  {
    forall i | 0 <= i < |acts|
      ensures !TakesOver(cfg, Exec(cfg, Start(clock), acts[..i]), acts[i])
    {
      assert !acts[i].AcquireRetry?;
    }
    AttemptsBounded(cfg, clock, acts, r);
    NoAcquisitions(cfg, Start(clock), acts, r);
  }

  lemma NextNeverExceeds(cfg: Config, s: Sys, act: Action, r: RawId)
    requires Inv(s) && Exclusive(s) && WithinBudget(cfg, s.db.raws) && (act.AcquireRetry? ==> !Overdraws(cfg, s, act))
    requires r in s.db.raws ==> s.db.raws[r].attempts <= cfg.maxAttempts
    requires r in Next(cfg, s, act).db.raws
    ensures Next(cfg, s, act).db.raws[r].attempts <= cfg.maxAttempts
  {
    if Enabled(cfg, s, act) {
      if act.CommitInsert? {
        assert AgentOk(s.db.raws, s.agents[act.a]);
      } else if act.MarkFailure? {
        assert OwnsRow(s, act.a);
      }
    }
  }

  /** Nor do workers together with manual retries that leave the row an attempt when they acquire it. */
  lemma {:induction false} CheckedRetriesNeverExceed(cfg: Config, clock: int, acts: seq<Action>, r: RawId)
    requires cfg.maxAttempts >= 1 && LeasedRun(cfg, Start(clock), acts) && UncontendedRun(cfg, Start(clock), acts)
    requires AcquiresWithinBudget(cfg, Start(clock), acts)
    requires r in Exec(cfg, Start(clock), acts).db.raws
    ensures Exec(cfg, Start(clock), acts).db.raws[r].attempts <= cfg.maxAttempts
  {
    var n := |acts| - 1;
    assert forall i :: 0 <= i <= n ==> acts[..n][..i] == acts[..i];
    if r in Exec(cfg, Start(clock), acts[..n]).db.raws {
      CheckedRetriesNeverExceed(cfg, clock, acts[..n], r);
    }
    RetriesWithinBudget(cfg, clock, acts[..n]);
    ExclusiveLease(cfg, clock, acts[..n]);
    Reachable(cfg, clock, acts[..n]);
    NextNeverExceeds(cfg, Exec(cfg, Start(clock), acts[..n]), acts[n], r);
  }

  /** One manual retry of a failed row that fails, and one worker call after it that fails. */
  function RetryThenWorker(error: string): seq<Action> {
    [AcquireRetry(0, 0), RecordRetryFailure(0, error)] + [SelectClaim(1, 0), CommitClaim(1), MarkFailure(1, error)]
  }

  /** The bound is exact: a retry does cost a failed row two attempts. */
  lemma RetryCostsTwo(cfg: Config, row: RawRow, clock: int, error: string)
    requires row.status == Failed && row.attempts >= cfg.maxAttempts
    ensures var s := Exec(cfg, Sys(OneRow(row), map[], clock), RetryThenWorker(error));
            && s.agents == map[] && s.clock == clock && s.db.raws.Keys == {0}
            && s.db.raws[0].status == Failed && s.db.raws[0].attempts == row.attempts + 2
  {
    var s, outcome := Sys(OneRow(row), map[], clock), ClassifyRaises(error);
    assert Locked(s.agents) == {};
    RetryIsARun(cfg, s, 0, 0, outcome);
    var s' := s.(db := Retried(cfg, s.db, 0, outcome, clock));
    assert Enabled(cfg, s', SelectClaim(1, 0));
    ProcessOneIsARun(cfg, s', 1, 0, outcome);
    ExecConcat(cfg, s, [AcquireRetry(0, 0), RecordRetryFailure(0, error)],
               [SelectClaim(1, 0), CommitClaim(1), MarkFailure(1, error)]);
  }
}
