/** The attempts budget, and the recovery of rows whose holder crashed. */
module Attempts {
  import opened Options
  import opened Tables
  import opened Queue
  import opened Pipeline
  import opened Safety
  import opened Prefixes

  /** 1 if the step records a worker failure of the row or a manual-retry acquisition of it, else 0. */
  ghost function Charge(cfg: Config, s: Sys, act: Action, r: RawId): nat {
    if !Enabled(cfg, s, act) then 0
    else match act
      case MarkFailure(a, _) => if s.agents[a].raw == r then 1 else 0
      case AcquireRetry(_, raw) => if raw == r then 1 else 0
      case _ => 0
  }

  ghost function Charges(cfg: Config, s: Sys, acts: seq<Action>, r: RawId): nat {
    if acts == [] then 0
    else Charges(cfg, s, acts[..|acts| - 1], r) + Charge(cfg, Exec(cfg, s, acts[..|acts| - 1]), acts[|acts| - 1], r)
  }

  /** A row that is not committed yet cannot be charged. */
  lemma {:induction false} NoChargeBeforeCommit(cfg: Config, clock: int, acts: seq<Action>, r: RawId)
    requires r !in Exec(cfg, Start(clock), acts).db.raws
    ensures Charges(cfg, Start(clock), acts, r) == 0
  {
    if acts == [] {
    } else {
      var init := acts[..|acts| - 1];
      NoChargeBeforeCommit(cfg, clock, init, r);
    }
  }

  /**
   * Attempts conservation: attempts is the number of recorded worker failures plus manual-retry acquisitions of the
   * row; claims, reaps, crashes and successes never change it.
   */
  lemma {:induction false} AttemptsConserved(cfg: Config, clock: int, acts: seq<Action>, r: RawId)
    requires r in Exec(cfg, Start(clock), acts).db.raws
    ensures Exec(cfg, Start(clock), acts).db.raws[r].attempts == Charges(cfg, Start(clock), acts, r)
  {
    var init, act := acts[..|acts| - 1], acts[|acts| - 1];
    var s := Exec(cfg, Start(clock), init);
    Reachable(cfg, clock, init);
    if r in s.db.raws {
      AttemptsConserved(cfg, clock, init, r);
      if act.CommitInsert? && Enabled(cfg, s, act) {
        assert AgentOk(s.db.raws, s.agents[act.a]);
      }
    } else {
      NoChargeBeforeCommit(cfg, clock, init, r);
      assert AgentOk(s.db.raws, s.agents[act.a]);
    }
  }

  /** Attempts conservation from any state of the invariant on. */
  lemma {:induction false} AttemptsGrowByCharges(cfg: Config, s: Sys, acts: seq<Action>, r: RawId)
    requires Inv(s) && r in s.db.raws
    ensures Inv(Exec(cfg, s, acts)) && r in Exec(cfg, s, acts).db.raws
    ensures Exec(cfg, s, acts).db.raws[r].attempts == s.db.raws[r].attempts + Charges(cfg, s, acts, r)
  {
    if acts == [] {
    } else {
      var init, act := acts[..|acts| - 1], acts[|acts| - 1];
      AttemptsGrowByCharges(cfg, s, init, r);
      var mid := Exec(cfg, s, init);
      NextKeepsInv(cfg, mid, act);
      if act.CommitInsert? && Enabled(cfg, mid, act) {
        assert AgentOk(mid.db.raws, mid.agents[act.a]);
      }
    }
  }

  ghost predicate WithinBudget(cfg: Config, raws: map<RawId, RawRow>) {
    forall r :: r in raws && (raws[r].status == Pending || raws[r].status == Processing) ==>
      raws[r].attempts < cfg.maxAttempts
  }

  /** The step acquires a row for its last attempt, or returns a row that has none left to pending. */
  ghost predicate Overdraws(cfg: Config, s: Sys, act: Action) {
    && Enabled(cfg, s, act)
    && ((act.AcquireRetry? && s.db.raws[act.raw].attempts + 1 >= cfg.maxAttempts)
        || (act.RecordRetryFailure? && s.db.raws[s.agents[act.a].raw].attempts >= cfg.maxAttempts))
  }

  /** Exactly which steps break the budget. */
  lemma BudgetKeptIff(cfg: Config, s: Sys, act: Action)
    requires cfg.maxAttempts >= 1 && Inv(s) && WithinBudget(cfg, s.db.raws)
    ensures WithinBudget(cfg, Next(cfg, s, act).db.raws) <==> !Overdraws(cfg, s, act)
  {
    var raws' := Next(cfg, s, act).db.raws;
    if Enabled(cfg, s, act) {
      if act.CommitInsert? || act.CommitClaim? {
        assert AgentOk(s.db.raws, s.agents[act.a]);
      } else if act.AcquireRetry? {
        assert raws'[act.raw].attempts == s.db.raws[act.raw].attempts + 1;
      } else if act.RecordRetryFailure? {
        assert raws'[s.agents[act.a].raw].status == Pending;
      }
    }
  }

  ghost predicate NeverOverdraws(cfg: Config, clock: int, acts: seq<Action>) {
    forall i :: 0 <= i < |acts| ==> !Overdraws(cfg, Exec(cfg, Start(clock), acts[..i]), acts[i])
  }

  /**
   * Attempts budget: in every state of a run each row that can still be worked on has attempts left, if and only if no
   * step of the run overdraws a row; stale holders or not.
   */
  lemma BudgetKept(cfg: Config, clock: int, acts: seq<Action>)
    requires cfg.maxAttempts >= 1
    ensures (forall i :: 0 <= i <= |acts| ==> WithinBudget(cfg, Exec(cfg, Start(clock), acts[..i]).db.raws))
            <==> NeverOverdraws(cfg, clock, acts)
  {
    forall i | 0 <= i < |acts| && WithinBudget(cfg, Exec(cfg, Start(clock), acts[..i]).db.raws)
      ensures WithinBudget(cfg, Exec(cfg, Start(clock), acts[..i + 1]).db.raws)
              <==> !Overdraws(cfg, Exec(cfg, Start(clock), acts[..i]), acts[i])
    {
      Reachable(cfg, clock, acts[..i]);
      ExecNext(cfg, Start(clock), acts, i);
      BudgetKeptIff(cfg, Exec(cfg, Start(clock), acts[..i]), acts[i]);
    }
    var good := (i: nat) => i <= |acts| ==> WithinBudget(cfg, Exec(cfg, Start(clock), acts[..i]).db.raws);
    var bad := (i: nat) => i < |acts| ==> Overdraws(cfg, Exec(cfg, Start(clock), acts[..i]), acts[i]);
    assert forall i :: 0 <= i <= |acts| ==>
        (good(i) <==> WithinBudget(cfg, Exec(cfg, Start(clock), acts[..i]).db.raws));
    assert forall i :: 0 <= i < |acts| ==> (bad(i) <==> Overdraws(cfg, Exec(cfg, Start(clock), acts[..i]), acts[i]));
    GoodIffNoStepBad(|acts|, good, bad);
  }

  ghost predicate NoManualRetry(acts: seq<Action>) {
    forall i :: 0 <= i < |acts| ==> !acts[i].AcquireRetry?
  }

  lemma {:induction false} NoRetriersWithoutRetries(cfg: Config, clock: int, acts: seq<Action>)
    requires NoManualRetry(acts)
    ensures forall a :: a in Exec(cfg, Start(clock), acts).agents ==> !Exec(cfg, Start(clock), acts).agents[a].Retrying?
  {
    if acts == [] {
    } else {
      NoRetriersWithoutRetries(cfg, clock, acts[..|acts| - 1]);
      assert !acts[|acts| - 1].AcquireRetry?;
    }
  }

  /** In particular the budget is kept by workers alone. */
  lemma WorkersKeepBudget(cfg: Config, clock: int, acts: seq<Action>)
    requires cfg.maxAttempts >= 1 && NoManualRetry(acts)
    ensures WithinBudget(cfg, Exec(cfg, Start(clock), acts).db.raws)
  {
    forall i | 0 <= i < |acts|
      ensures !Overdraws(cfg, Exec(cfg, Start(clock), acts[..i]), acts[i])
    {
      NoRetriersWithoutRetries(cfg, clock, acts[..i]);
    }
    BudgetKept(cfg, clock, acts);
    assert acts[..|acts|] == acts;
  }

  lemma ProcessingIsNotLocked(s: Sys, r: RawId)
    requires Inv(s) && r in s.db.raws && s.db.raws[r].status == Processing
    ensures r !in Locked(s.agents)
  {
    forall a | a in s.agents && s.agents[a].Claiming?
      ensures s.agents[a].raw != r
    {
      assert AgentOk(s.db.raws, s.agents[a]);
    }
  }

  /**
   * No row is lost by a crash: a processing row carries its claim time, and a reap whose threshold lies after it
   * returns exactly the stale processing rows to pending and touches nothing else.
   */
  lemma ReapRecovers(cfg: Config, clock: int, acts: seq<Action>, threshold: int, r: RawId)
    requires var s := Exec(cfg, Start(clock), acts);
             && r in s.db.raws && s.db.raws[r].status == Processing
             && threshold <= s.clock - cfg.window
    ensures var s, s' := Exec(cfg, Start(clock), acts), Exec(cfg, Start(clock), acts + [Reap(threshold)]);
            && s.db.raws[r].lockedAt.Some?
            && s'.agents == s.agents && s'.db.shipments == s.db.shipments && s'.db.invoices == s.db.invoices
            && s'.db.raws.Keys == s.db.raws.Keys
            && (forall q :: q in s.db.raws ==>
                  s'.db.raws[q] == if Stale(s.db.raws[q], threshold)
                                   then s.db.raws[q].(status := Pending, lockedAt := None) else s.db.raws[q])
            && (s.db.raws[r].lockedAt.value < threshold ==>
                  s'.db.raws[r].status == Pending && r !in Locked(s'.agents))
  {
    Reachable(cfg, clock, acts);
    var s := Exec(cfg, Start(clock), acts);
    assert RowOk(s.db.raws[r]);
    ProcessingIsNotLocked(s, r);
    assert (acts + [Reap(threshold)])[..|acts|] == acts;
  }

  function Waiting(s: Sys): set<RawId> {
    set q | q in s.db.raws && s.db.raws[q].status == Pending && q !in Locked(s.agents)
  }

  /** A claim takes one row out of the waiting ones. */
  lemma ClaimShrinksWaiting(cfg: Config, s: Sys, act: Action)
    requires act.SelectClaim? && Enabled(cfg, s, act)
    ensures act.raw in Waiting(s) && Waiting(Next(cfg, s, act)) == Waiting(s) - {act.raw}
  {
    LockedByOne(s.agents, act.a, Claiming(act.raw, s.clock));
  }

  lemma OneLess(all: set<RawId>, taken: set<RawId>, r: RawId)
    requires r in all - taken
    ensures all - taken - {r} == all - (taken + {r})
    ensures |all - (taken + {r})| == |all - taken| - 1
  {
    assert all - taken - {r} == all - (taken + {r});
  }

  /** The steps are claims that find a row, whichever agents make them and however ties are broken. */
  ghost predicate AllClaim(cfg: Config, s: Sys, claims: seq<Action>) {
    forall i :: 0 <= i < |claims| ==> claims[i].SelectClaim? && Enabled(cfg, Exec(cfg, s, claims[..i]), claims[i])
  }

  function Taken(claims: seq<Action>): set<RawId> {
    set act | act in claims && act.SelectClaim? :: act.raw
  }

  lemma TakenSnoc(claims: seq<Action>, last: Action)
    requires last.SelectClaim?
    ensures Taken(claims + [last]) == Taken(claims) + {last.raw}
  {
    assert last in claims + [last];
  }

  /** A prefix of claims is claims. */
  lemma AllClaimPrefix(cfg: Config, s: Sys, init: seq<Action>, last: Action)
    ensures AllClaim(cfg, s, init + [last]) <==>
            AllClaim(cfg, s, init) && last.SelectClaim? && Enabled(cfg, Exec(cfg, s, init), last)
  {
    var claims := init + [last];
    assert forall i :: 0 <= i <= |init| ==> init[..i] == claims[..i];
    assert init[..|init|] == init && claims[|init|] == last;
    assert forall i :: 0 <= i < |init| ==> init[i] == claims[i];
  }

  /** Every claim takes a different waiting row. */
  lemma {:induction false} ClaimsTakeWaiting(cfg: Config, s: Sys, claims: seq<Action>)
    requires AllClaim(cfg, s, claims)
    ensures Waiting(Exec(cfg, s, claims)) == Waiting(s) - Taken(claims)
    ensures |Waiting(Exec(cfg, s, claims))| + |claims| == |Waiting(s)|
  {
    if claims == [] {
    } else {
      var init, last := claims[..|claims| - 1], claims[|claims| - 1];
      assert claims == init + [last];
      AllClaimPrefix(cfg, s, init, last);
      ClaimsTakeWaiting(cfg, s, init);
      ClaimShrinksWaiting(cfg, Exec(cfg, s, init), last);
      TakenSnoc(init, last);
      OneLess(Waiting(s), Taken(init), last.raw);
    }
  }

  /**
   * No row starves: however claims go, there are at most as many as there are pending rows without an open claim, and
   * as many reach all of these rows.
   */
  lemma PendingIsClaimable(cfg: Config, s: Sys, claims: seq<Action>)
    requires AllClaim(cfg, s, claims)
    ensures |claims| <= |Waiting(s)|
    ensures |claims| == |Waiting(s)| <==> Waiting(s) <= Taken(claims)
  {
    ClaimsTakeWaiting(cfg, s, claims);
    NoneLeft(Waiting(s), Taken(claims), |claims|);
  }

  lemma NoneLeft(all: set<RawId>, taken: set<RawId>, n: nat)
    requires |all - taken| + n == |all|
    ensures n == |all| <==> all <= taken
  {
    assert forall r :: r in all && r !in taken ==> r in all - taken;
    assert |all - taken| == 0 <==> all - taken == {};
  }

  lemma SomeClaim(cfg: Config, s: Sys, a: AgentId) returns (r: RawId)
    requires Waiting(s) != {} && a !in s.agents
    ensures Enabled(cfg, s, SelectClaim(a, r))
  {
    r := SomeOldest(s.db.raws, Waiting(s));
    assert forall p :: p in s.db.raws && s.db.raws[p].status == Pending && p !in Locked(s.agents) ==> p in Waiting(s);
  }

  /** And until then the next claim of any idle agent finds a row. */
  lemma ClaimsGoOn(cfg: Config, s: Sys, claims: seq<Action>, a: AgentId) returns (r: RawId)
    requires AllClaim(cfg, s, claims) && |claims| < |Waiting(s)| && a !in Exec(cfg, s, claims).agents
    ensures AllClaim(cfg, s, claims + [SelectClaim(a, r)])
  {
    ClaimsTakeWaiting(cfg, s, claims);
    r := SomeClaim(cfg, Exec(cfg, s, claims), a);
    AllClaimPrefix(cfg, s, claims, SelectClaim(a, r));
  }
}
