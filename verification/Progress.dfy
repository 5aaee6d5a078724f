/** No call gets stuck and no row is lost: what may start, what may go on, and how every row can be finished. */
module Progress {
  import opened Options
  import opened Tables
  import opened Ingestion
  import opened Pipeline
  import opened Safety
  import opened Attempts
  import opened Calls

  /** A claim of the row is open, so the row is locked. */
  ghost predicate OpenClaim(s: Sys, r: RawId) {
    exists b :: b in s.agents && s.agents[b].Claiming? && s.agents[b].raw == r
  }

  /** An idle agent's retry acquires exactly the rows without an open claim that are pending, processing or failed. */
  lemma RetryStartsIff(cfg: Config, s: Sys, a: AgentId, r: RawId)
    requires a !in s.agents
    ensures Enabled(cfg, s, AcquireRetry(a, r)) <==>
            && r in s.db.raws && !OpenClaim(s, r)
            && (s.db.raws[r].status == Pending || s.db.raws[r].status == Processing || s.db.raws[r].status == Failed)
  {
  }

  /** An idle agent's claim may return exactly the oldest of the pending rows without an open claim. */
  lemma ClaimStartsIff(cfg: Config, s: Sys, a: AgentId, r: RawId)
    requires a !in s.agents
    ensures Enabled(cfg, s, SelectClaim(a, r)) <==>
            && r in s.db.raws && s.db.raws[r].status == Pending && !OpenClaim(s, r)
            && forall q :: q in s.db.raws && s.db.raws[q].status == Pending && !OpenClaim(s, q) ==>
                 s.db.raws[r].receivedAt <= s.db.raws[q].receivedAt
  {
    assert forall q :: OpenClaim(s, q) <==> q in Locked(s.agents);
  }

  /** A row, committed or not, that occupies the unique index for the key. */
  predicate Occupies(row: RawRow, vendor: string, hash: string) {
    row.duplicateOf.None? && row.vendorHint == vendor && row.hashExact == hash
  }

  ghost predicate IdTaken(s: Sys, id: RawId) {
    id in s.db.raws || exists b :: b in s.agents && s.agents[b].Inserted? && s.agents[b].id == id
  }

  /** An idle agent's insert goes ahead, meets a conflict, or waits for another agent's open insert of the key. */
  lemma InsertStartsIff(cfg: Config, s: Sys, a: AgentId, vendor: string, hash: string, id: RawId)
    requires a !in s.agents && !IdTaken(s, id)
    ensures var committed := exists r :: r in s.db.raws && Occupies(s.db.raws[r], vendor, hash);
            var open := exists b :: b in s.agents && s.agents[b].Inserted? && Occupies(s.agents[b].row, vendor, hash);
            && (Enabled(cfg, s, HitConflict(a, vendor, hash)) <==> committed)
            && (Enabled(cfg, s, InsertPrimary(a, vendor, hash, id)) <==> !committed && !open)
  {
    assert forall r :: IsPrimary(s.db.raws, vendor, hash, r) <==>
        r in s.db.raws && Occupies(s.db.raws[r], vendor, hash);
  }

  /** In every reachable state each open call has a next step, or waits for an open claim of its row to commit. */
  lemma CallsGoOn(cfg: Config, clock: int, acts: seq<Action>, a: AgentId, id: RawId, outcome: Outcome)
    requires a in Exec(cfg, Start(clock), acts).agents && !IdTaken(Exec(cfg, Start(clock), acts), id)
    ensures var s := Exec(cfg, Start(clock), acts);
            match s.agents[a]
            case Conflicted(_, _) => exists p :: Enabled(cfg, s, LookUpParent(a, p))
            case Located(_, _, _) => Enabled(cfg, s, InsertDuplicate(a, id))
            case Inserted(_, _, _) => Enabled(cfg, s, CommitInsert(a))
            case Claiming(_, _) => Enabled(cfg, s, CommitClaim(a))
            case Working(r, _) => !OpenClaim(s, r) ==> Enabled(cfg, s, Finish(a, outcome, true))
            case Retrying(r, _) => !OpenClaim(s, r) ==> Enabled(cfg, s, Finish(a, outcome, false))
  {
    Reachable(cfg, clock, acts);
    var s := Exec(cfg, Start(clock), acts);
    assert AgentOk(s.db.raws, s.agents[a]);
    if s.agents[a].Conflicted? {
      var p :| IsPrimary(s.db.raws, s.agents[a].vendor, s.agents[a].hash, p);
      assert IsParent(s.db.raws, s.agents[a].vendor, s.agents[a].hash, p);
      assert Enabled(cfg, s, LookUpParent(a, p));
    }
  }

  // Recovery.

  /** Every agent may crash, and the tables stay. */
  lemma {:induction false} AllCrash(cfg: Config, s: Sys) returns (more: seq<Action>)
    ensures Exec(cfg, s, more) == s.(agents := map[])
    decreases |s.agents|
  {
    if s.agents == map[] {
      more := [];
    } else {
      var a :| a in s.agents;
      var s' := s.(agents := s.agents - {a});
      assert s.agents.Keys == s'.agents.Keys + {a};
      assert |s'.agents.Keys| < |s.agents.Keys|;
      assert Exec(cfg, s, [Crash(a)]) == s' by {
        assert [Crash(a)][..0] == [];
      }
      var rest := AllCrash(cfg, s');
      ExecConcat(cfg, s, [Crash(a)], rest);
      more := [Crash(a)] + rest;
    }
  }

  /** A time after every claim time of the table. */
  lemma {:induction false} AfterAllClaims(raws: map<RawId, RawRow>) returns (t: int)
    ensures forall r :: r in raws && raws[r].lockedAt.Some? ==> raws[r].lockedAt.value < t
    decreases |raws|
  {
    if raws == map[] {
      t := 0;
    } else {
      var r :| r in raws;
      var rest := raws - {r};
      assert raws.Keys == rest.Keys + {r};
      t := AfterAllClaims(rest);
      if raws[r].lockedAt.Some? && t <= raws[r].lockedAt.value {
        t := raws[r].lockedAt.value + 1;
      }
    }
  }

  /** How a row is finished when every call on r has the outcome outcomes(r). */
  ghost predicate Finished(before: RawRow, after: RawRow, outcome: Outcome) {
    if before.status == Pending || before.status == Processing then
      after.status == if outcome.Succeeds() then Processed else Failed
    else after == before
  }

  ghost predicate AllFinished(before: map<RawId, RawRow>, after: map<RawId, RawRow>, outcomes: RawId -> Outcome) {
    before.Keys == after.Keys && forall r :: r in before ==> Finished(before[r], after[r], outcomes(r))
  }

  /** One agent works off the pending rows. */
  lemma {:induction false} WorkOff(cfg: Config, s: Sys, outcomes: RawId -> Outcome, bound: nat)
    returns (more: seq<Action>)
    requires s.agents == map[] && forall r :: r in s.db.raws ==> r < bound && s.db.raws[r].status != Processing
    ensures Exec(cfg, s, more).agents == map[]
    ensures AllFinished(s.db.raws, Exec(cfg, s, more).db.raws, outcomes)
    decreases Work(cfg, s.db.raws, bound, false)
  {
    if Waiting(s) == {} {
      more := [];
      assert forall r :: r in s.db.raws && s.db.raws[r].status == Pending ==> r in Waiting(s);
    } else {
      var r := SomeClaim(cfg, s, 0);
      var call := [SelectClaim(0, r), CommitClaim(0), Finish(0, outcomes(r), true)];
      ProcessOneIsARun(cfg, s, 0, r, outcomes(r));
      ProcessOneWorks(cfg, s.db, r, outcomes(r), s.clock, bound, false);
      var s' := Exec(cfg, s, call);
      var rest := WorkOff(cfg, s', outcomes, bound);
      ExecConcat(cfg, s, call, rest);
      more := call + rest;
      FinishedLater(cfg, s, s', Exec(cfg, s', rest), r, outcomes);
    }
  }

  lemma FinishedLater(cfg: Config, s: Sys, s': Sys, t: Sys, r: RawId, outcomes: RawId -> Outcome)
    requires r in s.db.raws && s.db.raws[r].status == Pending
    requires s'.db == ProcessedOne(cfg, s.db, r, outcomes(r), s.clock)
    requires AllFinished(s'.db.raws, t.db.raws, outcomes)
    ensures AllFinished(s.db.raws, t.db.raws, outcomes)
  {
  }

  /** Every stale row is reaped once the clock is far enough. */
  lemma ReapAll(cfg: Config, s: Sys, t: int)
    requires forall r :: r in s.db.raws && s.db.raws[r].lockedAt.Some? ==> s.db.raws[r].lockedAt.value < t
    requires forall r :: r in s.db.raws && s.db.raws[r].status == Processing ==> s.db.raws[r].lockedAt.Some?
    requires s.agents == map[] && s.clock <= t
    ensures var s' := Exec(cfg, s, [Tick(t + cfg.window), Reap(t)]);
            && s'.agents == map[] && s'.db.raws.Keys == s.db.raws.Keys
            && forall r :: r in s.db.raws ==>
                 if s.db.raws[r].status == Processing then
                   s'.db.raws[r] == s.db.raws[r].(status := Pending, lockedAt := None)
                 else s'.db.raws[r] == s.db.raws[r]
  {
    ExecTwo(cfg, s, Tick(t + cfg.window), Reap(t));
  }

  /**
   * From every reachable state, whatever was going on, a crash of every agent can be recovered from by time, the reaper
   * and one worker: every row that was pending or processing ends processed if its calls succeed, and failed otherwise;
   * the rows that were done, and the duplicates, stay as they were.
   */
  lemma EveryRowCanBeFinished(cfg: Config, clock: int, acts: seq<Action>, outcomes: RawId -> Outcome)
    returns (more: seq<Action>)
    ensures AllFinished(Exec(cfg, Start(clock), acts).db.raws, Exec(cfg, Start(clock), acts + more).db.raws, outcomes)
    ensures Exec(cfg, Start(clock), acts + more).agents == map[]
  {
    Reachable(cfg, clock, acts);
    var s := Exec(cfg, Start(clock), acts);
    assert forall r :: r in s.db.raws ==> RowOk(s.db.raws[r]);
    var crash := AllCrash(cfg, s);
    var t := AfterAllClaims(s.db.raws);
    if t < s.clock {
      t := s.clock;
    }
    var s1, wait := Exec(cfg, s, crash), [Tick(t + cfg.window), Reap(t)];
    ReapAll(cfg, s1, t);
    var s2, bound := Exec(cfg, s1, wait), Beyond(s.db.raws.Keys);
    var work := WorkOff(cfg, s2, outcomes, bound);
    ExecConcat(cfg, s1, wait, work);
    ExecConcat(cfg, s, crash, wait + work);
    ExecConcat(cfg, Start(clock), acts, crash + (wait + work));
    more := crash + (wait + work);
  }

  /** A number greater than every id in the set. */
  ghost function Beyond(ids: set<RawId>): (n: nat)
    ensures forall r :: r in ids ==> r < n
  {
    if ids == {} then 0
    else
      var r :| r in ids;
      assert ids == (ids - {r}) + {r};
      var rest := Beyond(ids - {r});
      if rest <= r then r + 1 else rest
  }
}
