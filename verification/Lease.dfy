/** Claims and leases: who may hold a raw row, and for how long. */
module Lease {
  import opened Options
  import opened Tables
  import opened Pipeline
  import opened Safety
  import opened Attempts
  import opened Prefixes

  /** Overlapping claims hold pairwise distinct pending rows. */
  lemma ClaimsAreDistinct(cfg: Config, clock: int, acts: seq<Action>, a: AgentId, b: AgentId)
    requires var agents := Exec(cfg, Start(clock), acts).agents;
             a != b && a in agents && b in agents && agents[a].Claiming? && agents[b].Claiming?
    ensures var s := Exec(cfg, Start(clock), acts);
            && s.agents[a].raw != s.agents[b].raw
            && s.agents[a].raw in s.db.raws && s.db.raws[s.agents[a].raw].status == Pending
  {
    Reachable(cfg, clock, acts);
    var s := Exec(cfg, Start(clock), acts);
    assert Apart(s.agents[a], s.agents[b]) && AgentOk(s.db.raws, s.agents[a]);
  }

  predicate OlderPending(raws: map<RawId, RawRow>, q: RawId, r: RawId) {
    q in raws && r in raws && raws[q].status == Pending && raws[q].receivedAt < raws[r].receivedAt
  }

  /**
   * Claim fairness: a claim returns a row exactly when some pending row is free, and every older pending row it passes
   * over is locked by an open claim; so with no claim open it returns an oldest pending row.
   */
  lemma ClaimIsFair(cfg: Config, s: Sys, a: AgentId)
    requires a !in s.agents
    ensures (exists r :: Enabled(cfg, s, SelectClaim(a, r))) <==> Waiting(s) != {}
    ensures forall r, q :: Enabled(cfg, s, SelectClaim(a, r)) && OlderPending(s.db.raws, q, r) ==>
              exists b :: b in s.agents && b != a && s.agents[b].Claiming? && s.agents[b].raw == q
  {
    if Waiting(s) != {} {
      var r := SomeClaim(cfg, s, a);
    }
    if r :| Enabled(cfg, s, SelectClaim(a, r)) {
      assert r in Waiting(s);
    }
  }

  /** LEASE: every live holder is younger than the stale-lock window. */
  ghost predicate LeaseHeld(cfg: Config, s: Sys) {
    forall a :: a in s.agents && s.agents[a].Holder() ==> s.clock < s.agents[a].since + cfg.window
  }

  ghost predicate LeasedRun(cfg: Config, s: Sys, acts: seq<Action>) {
    forall i :: 0 <= i <= |acts| ==> LeaseHeld(cfg, Exec(cfg, s, acts[..i]))
  }

  ghost predicate HasLiveHolder(s: Sys, r: RawId) {
    exists b :: b in s.agents && s.agents[b].Holder() && s.agents[b].raw == r
  }

  /** The step is a manual retry that acquires a row from under a live holder. */
  ghost predicate TakesOver(cfg: Config, s: Sys, act: Action) {
    act.AcquireRetry? && Enabled(cfg, s, act) && HasLiveHolder(s, act.raw)
  }

  ghost predicate UncontendedRun(cfg: Config, s: Sys, acts: seq<Action>) {
    forall i :: 0 <= i < |acts| ==> !TakesOver(cfg, Exec(cfg, s, acts[..i]), acts[i])
  }

  lemma LeasedSnoc(cfg: Config, s: Sys, acts: seq<Action>, act: Action)
    ensures LeasedRun(cfg, s, acts + [act]) <==> LeasedRun(cfg, s, acts) && LeaseHeld(cfg, Exec(cfg, s, acts + [act]))
  {
    var all := acts + [act];
    assert all[..|all|] == all;
    assert forall i :: 0 <= i <= |acts| ==> all[..i] == acts[..i];
  }

  lemma UncontendedSnoc(cfg: Config, s: Sys, acts: seq<Action>, act: Action)
    ensures UncontendedRun(cfg, s, acts + [act]) <==>
            UncontendedRun(cfg, s, acts) && !TakesOver(cfg, Exec(cfg, s, acts), act)
  {
    var all := acts + [act];
    assert acts[..|acts|] == acts && all[|acts|] == act;
    assert forall i :: 0 <= i <= |acts| ==> all[..i] == acts[..i];
    assert forall i :: 0 <= i < |acts| ==> all[i] == acts[i];
  }

  /** A live holder's row is processing under the holder's own claim. */
  ghost predicate OwnsRow(s: Sys, a: AgentId)
    requires a in s.agents
  {
    s.agents[a].Holder() ==>
      s.agents[a].raw in s.db.raws
      && s.db.raws[s.agents[a].raw].status == Processing
      && s.db.raws[s.agents[a].raw].lockedAt == Some(s.agents[a].since)
  }

  ghost predicate Exclusive(s: Sys) {
    && (forall a :: a in s.agents ==> OwnsRow(s, a))
    && (forall a, b :: a in s.agents && b in s.agents && a != b && s.agents[a].Holder() && s.agents[b].Holder() ==>
          s.agents[a].raw != s.agents[b].raw)
  }

  /** A reap within the lease passes a holder's row over. */
  lemma ReapKeepsOwnership(cfg: Config, s: Sys, threshold: int, b: AgentId)
    requires LeaseHeld(cfg, s) && Enabled(cfg, s, Reap(threshold)) && b in s.agents && OwnsRow(s, b)
    ensures OwnsRow(Next(cfg, s, Reap(threshold)), b)
  {
  }

  /** A manual retry that takes nothing over acquires another row. */
  lemma RetryKeepsOwnership(cfg: Config, s: Sys, a: AgentId, r: RawId, b: AgentId)
    requires Enabled(cfg, s, AcquireRetry(a, r)) && !HasLiveHolder(s, r) && b in s.agents && OwnsRow(s, b)
    ensures OwnsRow(Next(cfg, s, AcquireRetry(a, r)), b)
  {
    assert s.agents[b].Holder() ==> HasLiveHolder(s, s.agents[b].raw);
  }

  /** A claim commits on a pending row, and an insert on a new one. */
  lemma CommitKeepsOwnership(cfg: Config, s: Sys, act: Action, b: AgentId)
    requires Inv(s) && Enabled(cfg, s, act) && (act.CommitClaim? || act.CommitInsert?) && act.a != b
    requires b in s.agents && OwnsRow(s, b)
    ensures OwnsRow(Next(cfg, s, act), b)
  {
    assert AgentOk(s.db.raws, s.agents[act.a]);
  }

  /** Other agents leave a holder's row alone: they hold other rows. */
  lemma OthersKeepOwnership(cfg: Config, s: Sys, act: Action, b: AgentId)
    requires Inv(s) && Exclusive(s) && LeaseHeld(cfg, s) && !TakesOver(cfg, s, act) && Enabled(cfg, s, act)
    requires b in s.agents && b in Next(cfg, s, act).agents && Next(cfg, s, act).agents[b] == s.agents[b]
    ensures OwnsRow(Next(cfg, s, act), b)
  {
    assert OwnsRow(s, b);
    if act.Reap? {
      ReapKeepsOwnership(cfg, s, act.threshold, b);
    } else if act.AcquireRetry? {
      RetryKeepsOwnership(cfg, s, act.a, act.raw, b);
    } else if act.CommitClaim? || act.CommitInsert? {
      CommitKeepsOwnership(cfg, s, act, b);
    }
  }

  lemma NextKeepsOwnership(cfg: Config, s: Sys, act: Action, b: AgentId)
    requires Inv(s) && Exclusive(s) && LeaseHeld(cfg, s) && !TakesOver(cfg, s, act) && Enabled(cfg, s, act)
    requires b in Next(cfg, s, act).agents
    ensures OwnsRow(Next(cfg, s, act), b)
  {
    if b in s.agents && Next(cfg, s, act).agents[b] == s.agents[b] {
      OthersKeepOwnership(cfg, s, act, b);
    } else if b in s.agents {
      assert AgentOk(s.db.raws, s.agents[b]);
    }
  }

  lemma NextKeepsHoldersApart(cfg: Config, s: Sys, act: Action, a: AgentId, b: AgentId)
    requires Inv(s) && Exclusive(s) && !TakesOver(cfg, s, act) && Enabled(cfg, s, act) && a != b
    requires a in Next(cfg, s, act).agents
    requires b in s.agents && b in Next(cfg, s, act).agents && Next(cfg, s, act).agents[b] == s.agents[b]
    requires Next(cfg, s, act).agents[a].Holder() && s.agents[b].Holder()
    ensures Next(cfg, s, act).agents[a].raw != s.agents[b].raw
  {
    assert OwnsRow(s, b) && HasLiveHolder(s, s.agents[b].raw);
    if a in s.agents {
      assert AgentOk(s.db.raws, s.agents[a]);
    }
  }

  lemma NextKeepsExclusive(cfg: Config, s: Sys, act: Action)
    requires Inv(s) && Exclusive(s) && LeaseHeld(cfg, s) && !TakesOver(cfg, s, act)
    ensures Exclusive(Next(cfg, s, act))
  {
    var s' := Next(cfg, s, act);
    if Enabled(cfg, s, act) {
      forall b | b in s'.agents
        ensures OwnsRow(s', b)
      {
        NextKeepsOwnership(cfg, s, act, b);
      }
      forall a, b | a in s'.agents && b in s'.agents && a != b && s'.agents[a].Holder() && s'.agents[b].Holder()
        ensures s'.agents[a].raw != s'.agents[b].raw
      {
        if b in s.agents && s'.agents[b] == s.agents[b] {
          NextKeepsHoldersApart(cfg, s, act, a, b);
        } else {
          NextKeepsHoldersApart(cfg, s, act, b, a);
        }
      }
    }
  }

  /** Exactly which steps end exclusivity while the leases hold: a manual retry of a row that a live holder has. */
  lemma ExclusiveKeptIff(cfg: Config, s: Sys, act: Action)
    requires Inv(s) && Exclusive(s) && LeaseHeld(cfg, s)
    ensures Exclusive(Next(cfg, s, act)) <==> !TakesOver(cfg, s, act)
  {
    if TakesOver(cfg, s, act) {
      var b :| b in s.agents && s.agents[b].Holder() && s.agents[b].raw == act.raw;
      var s' := Next(cfg, s, act);
      assert s'.agents[b] == s.agents[b] && s'.agents[act.a] == Retrying(act.raw, s.clock);
    } else {
      NextKeepsExclusive(cfg, s, act);
    }
  }

  /** Over a run with leases, every state is exclusive if and only if no step takes over a row. */
  lemma ExclusiveRunIff(cfg: Config, clock: int, acts: seq<Action>)
    requires LeasedRun(cfg, Start(clock), acts)
    ensures (forall i :: 0 <= i <= |acts| ==> Exclusive(Exec(cfg, Start(clock), acts[..i])))
            <==> UncontendedRun(cfg, Start(clock), acts)
  {
    forall i | 0 <= i < |acts| && Exclusive(Exec(cfg, Start(clock), acts[..i]))
      ensures Exclusive(Exec(cfg, Start(clock), acts[..i + 1]))
              <==> !TakesOver(cfg, Exec(cfg, Start(clock), acts[..i]), acts[i])
    {
      Reachable(cfg, clock, acts[..i]);
      ExecNext(cfg, Start(clock), acts, i);
      ExclusiveKeptIff(cfg, Exec(cfg, Start(clock), acts[..i]), acts[i]);
    }
    var good := (i: nat) => i <= |acts| ==> Exclusive(Exec(cfg, Start(clock), acts[..i]));
    var bad := (i: nat) => i < |acts| ==> TakesOver(cfg, Exec(cfg, Start(clock), acts[..i]), acts[i]);
    assert forall i :: 0 <= i <= |acts| ==> (good(i) <==> Exclusive(Exec(cfg, Start(clock), acts[..i])));
    assert forall i :: 0 <= i < |acts| ==> (bad(i) <==> TakesOver(cfg, Exec(cfg, Start(clock), acts[..i]), acts[i]));
    GoodIffNoStepBad(|acts|, good, bad);
  }

  /** A live holder is the only one of its row, which is processing under the holder's own claim. */
  lemma ExclusiveLease(cfg: Config, clock: int, acts: seq<Action>)
    requires LeasedRun(cfg, Start(clock), acts) && UncontendedRun(cfg, Start(clock), acts)
    ensures Exclusive(Exec(cfg, Start(clock), acts))
  {
    ExclusiveRunIff(cfg, clock, acts);
    assert acts[..|acts|] == acts;
  }

  /** What an operator can read off the row: it is not processing, or its claim is older than the window. */
  predicate ShownUnheld(cfg: Config, row: RawRow, clock: int) {
    row.status != Processing || (row.lockedAt.Some? && row.lockedAt.value + cfg.window <= clock)
  }

  /** While the leases hold, retrying a row that shows it is unheld takes nothing over. */
  lemma ShownUnheldIsUnheld(cfg: Config, s: Sys, r: RawId)
    requires Exclusive(s) && LeaseHeld(cfg, s) && r in s.db.raws && ShownUnheld(cfg, s.db.raws[r], s.clock)
    ensures !HasLiveHolder(s, r)
  {
    forall b | b in s.agents && s.agents[b].Holder()
      ensures s.agents[b].raw != r
    {
      assert OwnsRow(s, b);
    }
  }

  /** Every manual retry in the run acquires a row that shows it is unheld. */
  ghost predicate RetriesChecked(cfg: Config, s: Sys, acts: seq<Action>) {
    forall i :: 0 <= i < |acts| && acts[i].AcquireRetry? && Enabled(cfg, Exec(cfg, s, acts[..i]), acts[i]) ==>
      ShownUnheld(cfg, Exec(cfg, s, acts[..i]).db.raws[acts[i].raw], Exec(cfg, s, acts[..i]).clock)
  }

  lemma CheckedTakesNothingOver(cfg: Config, s: Sys, act: Action)
    requires Exclusive(s) && LeaseHeld(cfg, s)
    requires act.AcquireRetry? && Enabled(cfg, s, act) ==> ShownUnheld(cfg, s.db.raws[act.raw], s.clock)
    ensures !TakesOver(cfg, s, act)
  {
    if act.AcquireRetry? && Enabled(cfg, s, act) {
      ShownUnheldIsUnheld(cfg, s, act.raw);
    }
  }

  lemma LeasedAtEnd(cfg: Config, s: Sys, acts: seq<Action>)
    requires LeasedRun(cfg, s, acts)
    ensures LeaseHeld(cfg, Exec(cfg, s, acts))
  {
    assert acts[..|acts|] == acts;
  }

  lemma CheckedSnoc(cfg: Config, s: Sys, acts: seq<Action>, act: Action)
    requires RetriesChecked(cfg, s, acts + [act])
    ensures RetriesChecked(cfg, s, acts)
    ensures act.AcquireRetry? && Enabled(cfg, Exec(cfg, s, acts), act) ==>
              ShownUnheld(cfg, Exec(cfg, s, acts).db.raws[act.raw], Exec(cfg, s, acts).clock)
  {
    var all := acts + [act];
    assert all[|acts|] == act;
    assert forall i :: 0 <= i <= |acts| ==> all[..i] == acts[..i];
    assert forall i :: 0 <= i < |acts| ==> all[i] == acts[i];
    assert acts[..|acts|] == acts;
  }

  /** An operator who checks the row first never takes one over. */
  lemma {:induction false} CheckedRetriesTakeNothingOver(cfg: Config, clock: int, acts: seq<Action>)
    requires LeasedRun(cfg, Start(clock), acts) && RetriesChecked(cfg, Start(clock), acts)
    ensures UncontendedRun(cfg, Start(clock), acts)
  {
    if acts == [] {
    } else {
      var init, act := acts[..|acts| - 1], acts[|acts| - 1];
      assert acts == init + [act];
      LeasedSnoc(cfg, Start(clock), init, act);
      CheckedSnoc(cfg, Start(clock), init, act);
      CheckedRetriesTakeNothingOver(cfg, clock, init);
      ExclusiveLease(cfg, clock, init);
      LeasedAtEnd(cfg, Start(clock), init);
      CheckedTakesNothingOver(cfg, Exec(cfg, Start(clock), init), act);
      UncontendedSnoc(cfg, Start(clock), init, act);
    }
  }

  /** Every manual retry in the run leaves the row an attempt when it acquires it. */
  ghost predicate AcquiresWithinBudget(cfg: Config, s: Sys, acts: seq<Action>) {
    forall i :: 0 <= i < |acts| && acts[i].AcquireRetry? ==> !Overdraws(cfg, Exec(cfg, s, acts[..i]), acts[i])
  }

  /**
   * Under LEASE without take-overs the budget needs a check at acquisition only: it is kept if every manual retry
   * leaves the row an attempt.
   */
  lemma {:induction false} RetriesWithinBudget(cfg: Config, clock: int, acts: seq<Action>)
    requires cfg.maxAttempts >= 1 && LeasedRun(cfg, Start(clock), acts) && UncontendedRun(cfg, Start(clock), acts)
    requires AcquiresWithinBudget(cfg, Start(clock), acts)
    ensures WithinBudget(cfg, Exec(cfg, Start(clock), acts).db.raws)
  {
    if acts == [] {
    } else {
      var init, act := acts[..|acts| - 1], acts[|acts| - 1];
      assert forall i :: 0 <= i <= |init| ==> init[..i] == acts[..i];
      RetriesWithinBudget(cfg, clock, init);
      ExclusiveLease(cfg, clock, init);
      Reachable(cfg, clock, init);
      var s := Exec(cfg, Start(clock), init);
      if act.RecordRetryFailure? && Enabled(cfg, s, act) {
        assert OwnsRow(s, act.a);
      }
      assert act.AcquireRetry? ==> !Overdraws(cfg, Exec(cfg, Start(clock), acts[..|init|]), act);
      BudgetKeptIff(cfg, s, act);
    }
  }

  /** Exactly which steps take a row out of processed: a failure recorded by a holder that is still around. */
  lemma ProcessedIsLeftIff(cfg: Config, s: Sys, act: Action, r: RawId)
    requires Inv(s) && r in s.db.raws && s.db.raws[r].status == Processed
    ensures r in Next(cfg, s, act).db.raws
    ensures Next(cfg, s, act).db.raws[r].status != Processed <==>
            (act.MarkFailure? || act.RecordRetryFailure?) && Enabled(cfg, s, act) && s.agents[act.a].raw == r
  {
    if act.CommitInsert? || act.CommitClaim? {
      if Enabled(cfg, s, act) {
        assert AgentOk(s.db.raws, s.agents[act.a]);
      }
    }
  }

  /** With leases and without take-overs, processed is absorbing. */
  lemma {:induction false} ProcessedIsAbsorbing(cfg: Config, clock: int, acts: seq<Action>, n: nat, r: RawId)
    requires LeasedRun(cfg, Start(clock), acts) && UncontendedRun(cfg, Start(clock), acts) && n <= |acts|
    requires r in Exec(cfg, Start(clock), acts[..n]).db.raws
    requires Exec(cfg, Start(clock), acts[..n]).db.raws[r].status == Processed
    ensures r in Exec(cfg, Start(clock), acts).db.raws
    ensures Exec(cfg, Start(clock), acts).db.raws[r].status == Processed
    decreases |acts|
  {
    if n == |acts| {
      assert acts[..n] == acts;
    } else {
      var init, act := acts[..|acts| - 1], acts[|acts| - 1];
      assert forall i :: 0 <= i <= |init| ==> init[..i] == acts[..i];
      ProcessedIsAbsorbing(cfg, clock, init, n, r);
      ExclusiveLease(cfg, clock, init);
      Reachable(cfg, clock, init);
      var s := Exec(cfg, Start(clock), init);
      ProcessedIsLeftIff(cfg, s, act, r);
      if act.MarkFailure? || act.RecordRetryFailure? {
        assert act.a in s.agents ==> OwnsRow(s, act.a);
      }
    }
  }

  /** With leases and without take-overs, a failed row changes only by a manual retry of it. */
  lemma FailedIsLeftByRetryOnly(cfg: Config, clock: int, acts: seq<Action>, act: Action, r: RawId)
    requires LeasedRun(cfg, Start(clock), acts) && UncontendedRun(cfg, Start(clock), acts)
    requires r in Exec(cfg, Start(clock), acts).db.raws
    requires Exec(cfg, Start(clock), acts).db.raws[r].status == Failed
    ensures var s := Exec(cfg, Start(clock), acts);
            r in Next(cfg, s, act).db.raws
            && (Next(cfg, s, act).db.raws[r] != s.db.raws[r] <==>
                act.AcquireRetry? && Enabled(cfg, s, act) && act.raw == r)
  {
    ExclusiveLease(cfg, clock, acts);
    Reachable(cfg, clock, acts);
    var s := Exec(cfg, Start(clock), acts);
    if Enabled(cfg, s, act) && !act.Tick? && !act.Reap? && act.a in s.agents {
      assert OwnsRow(s, act.a) && AgentOk(s.db.raws, s.agents[act.a]);
    }
  }
}
