/** The worker loop (app/workers/ingest_worker.py, run) as a sequence of passes, and what a whole drain amounts to. */
module Drains {
  import opened Options
  import opened Events
  import opened Tables
  import opened Normalization
  import opened Queue
  import opened Replay
  import opened Pipeline
  import opened Calls

  /** The tables as process_one finds them, after the reap at time `reap` if one is due. */
  function Due(cfg: Config, db: Db, reap: Option<int>): Db {
    if reap.None? then db else db.(raws := Reaped(db.raws, reap.value - cfg.window))
  }

  /** What the passes of a loop are given: outcomes of their calls, times of their calls, and times of their reaps. */
  datatype Schedule = Schedule(outcomes: nat -> Outcome, clock: nat -> int, reaps: nat -> Option<int>)

  /** One pass of the loop: a reap if one is due, then process_one, which works on the row `claimed` if it finds one. */
  ghost predicate IsPass(cfg: Config, before: Db, claimed: Option<RawId>, after: Db, reap: Option<int>,
                         outcome: Outcome, now: int) {
    var mid := Due(cfg, before, reap);
    if claimed.Some? then
      Oldest(mid.raws, {}, claimed.value) && after == ProcessedOne(cfg, mid, claimed.value, outcome, now)
    else
      after == mid && forall r :: r in mid.raws ==> mid.raws[r].status != Pending
  }

  /** What process_one promises of a call is what makes it a pass. */
  lemma ProcessOneIsPass(cfg: Config, before: Db, claimed: Option<RawId>, after: Db, reap: Option<int>,
                         outcome: Outcome, now: int)
    requires var mid := Due(cfg, before, reap);
             if claimed.Some? then
               Oldest(mid.raws, {}, claimed.value) && after == ProcessedOne(cfg, mid, claimed.value, outcome, now)
             else
               after == mid && !exists q :: q in mid.raws && mid.raws[q].status == Pending && q !in {}
    ensures IsPass(cfg, before, claimed, after, reap, outcome, now)
  {
    if claimed.None? {
      forall r | r in Due(cfg, before, reap).raws
        ensures Due(cfg, before, reap).raws[r].status != Pending
      {
        assert r !in {};
      }
    }
  }

  /** Pass i of the plan. */
  ghost predicate IsPlanned(cfg: Config, before: Db, claimed: Option<RawId>, after: Db, plan: Schedule, i: nat) {
    IsPass(cfg, before, claimed, after, plan.reaps(i), plan.outcomes(i), plan.clock(i))
  }

  /** The tables before and after each pass, and the rows the passes claimed; every pass but the last did work. */
  ghost predicate IsLoop(cfg: Config, views: seq<Db>, claims: seq<Option<RawId>>, plan: Schedule) {
    && |views| == |claims| + 1
    && (forall i :: 0 <= i < |claims| ==>
          IsPlanned(cfg, views[i], claims[i], views[i + 1], plan, i))
    && (forall i :: 0 <= i < |claims| - 1 ==> claims[i].Some?)
  }

  /** A loop that has found nothing to do. */
  ghost predicate IsDrain(cfg: Config, views: seq<Db>, claims: seq<Option<RawId>>, plan: Schedule) {
    IsLoop(cfg, views, claims, plan) && claims != [] && claims[|claims| - 1].None?
  }

  lemma LoopPrefix(cfg: Config, views: seq<Db>, claims: seq<Option<RawId>>, plan: Schedule)
    requires IsLoop(cfg, views, claims, plan) && claims != []
    ensures IsLoop(cfg, views[..|views| - 1], claims[..|claims| - 1], plan)
  {
  }

  lemma LoopSnoc(cfg: Config, views: seq<Db>, claims: seq<Option<RawId>>, plan: Schedule, c: Option<RawId>, after: Db)
    requires IsLoop(cfg, views, claims, plan) && forall i :: 0 <= i < |claims| ==> claims[i].Some?
    requires IsPlanned(cfg, views[|claims|], c, after, plan, |claims|)
    ensures IsLoop(cfg, views + [after], claims + [c], plan)
    ensures CallsWorked(claims + [c]) == CallsWorked(claims) + if c.Some? then 1 else 0
  {
    assert (claims + [c])[..|claims|] == claims;
    assert forall i :: 0 <= i <= |claims| ==> (views + [after])[i] == views[i];
    assert forall i :: 0 <= i < |claims| ==> (claims + [c])[i] == claims[i];
  }

  // Rows.

  /** A call on the row is among the claims. */
  ghost predicate Worked(claims: seq<Option<RawId>>, r: RawId) {
    exists i :: 0 <= i < |claims| && claims[i] == Some(r)
  }

  /** A call on the row is among the claims, and it succeeded. */
  ghost predicate Succeeded(claims: seq<Option<RawId>>, plan: Schedule, r: RawId) {
    exists i :: 0 <= i < |claims| && claims[i] == Some(r) && plan.outcomes(i).Succeeds()
  }

  predicate Done(row: RawRow) {
    row.status == Processed || row.status == Failed
  }

  /** What the passes have made of a row. */
  ghost predicate RowAfter(before: RawRow, after: RawRow, worked: bool, succeeded: bool) {
    if !worked then
      after == before || (before.status == Processing && after == before.(status := Pending, lockedAt := None))
    else
      (before.status == Pending || before.status == Processing)
      && (if succeeded then after.status == Processed else after.status == Pending || after.status == Failed)
  }

  /** What one pass makes of it. */
  lemma PassMovesRow(cfg: Config, before: Db, claimed: Option<RawId>, after: Db, plan: Schedule, i: nat, r: RawId)
    requires IsPlanned(cfg, before, claimed, after, plan, i)
    ensures after.raws.Keys == before.raws.Keys
    ensures r in before.raws ==>
              RowAfter(before.raws[r], after.raws[r], claimed == Some(r), plan.outcomes(i).Succeeds())
    ensures claimed == Some(r) ==> r in before.raws
  {
  }

  /** The next claim extends what is known of a row. */
  lemma ClaimsSnoc(claims: seq<Option<RawId>>, plan: Schedule, c: Option<RawId>, r: RawId)
    ensures Worked(claims + [c], r) <==> Worked(claims, r) || c == Some(r)
    ensures Succeeded(claims + [c], plan, r) <==>
            Succeeded(claims, plan, r) || (c == Some(r) && plan.outcomes(|claims|).Succeeds())
  {
    var all := claims + [c];
    assert all[|claims|] == c;
    assert forall i :: 0 <= i < |claims| ==> all[i] == claims[i];
  }

  lemma {:induction false} LoopMovesRow(cfg: Config, views: seq<Db>, claims: seq<Option<RawId>>, plan: Schedule,
                                        r: RawId)
    requires IsLoop(cfg, views, claims, plan) && r in views[0].raws
    ensures views[|claims|].raws.Keys == views[0].raws.Keys
    ensures RowAfter(views[0].raws[r], views[|claims|].raws[r], Worked(claims, r), Succeeded(claims, plan, r))
  {
    if claims == [] {
    } else {
      var n := |claims| - 1;
      LoopPrefix(cfg, views, claims, plan);
      LoopMovesRow(cfg, views[..n + 1], claims[..n], plan, r);
      PassMovesRow(cfg, views[n], claims[n], views[n + 1], plan, n, r);
      assert claims == claims[..n] + [claims[n]];
      ClaimsSnoc(claims[..n], plan, claims[n], r);
    }
  }

  ghost predicate NoReaps(plan: Schedule) {
    forall i :: plan.reaps(i).None?
  }

  lemma {:induction false} ProcessingIsLeftAlone(cfg: Config, views: seq<Db>, claims: seq<Option<RawId>>,
                                                 plan: Schedule, r: RawId)
    requires IsLoop(cfg, views, claims, plan) && NoReaps(plan)
    requires r in views[0].raws && views[0].raws[r].status == Processing
    ensures r in views[|claims|].raws && views[|claims|].raws[r] == views[0].raws[r]
  {
    if claims == [] {
    } else {
      var n := |claims| - 1;
      LoopPrefix(cfg, views, claims, plan);
      ProcessingIsLeftAlone(cfg, views[..n + 1], claims[..n], plan, r);
      PassMovesRow(cfg, views[n], claims[n], views[n + 1], plan, n, r);
    }
  }

  /**
   * A drain works on every row that was pending; of the rows it works on, exactly those with a successful call end
   * processed, and the others end failed; all other rows stay as they were.
   */
  lemma DrainFinishesRow(cfg: Config, views: seq<Db>, claims: seq<Option<RawId>>, plan: Schedule, r: RawId)
    requires IsDrain(cfg, views, claims, plan) && r in views[0].raws
    ensures r in views[|claims|].raws
    ensures views[0].raws[r].status == Pending ==> Worked(claims, r)
    ensures var row := views[|claims|].raws[r];
            if Worked(claims, r) then
              Done(row) && (row.status == Processed <==> Succeeded(claims, plan, r))
            else row == views[0].raws[r]
    ensures Worked(claims, r) ==>
              views[0].raws[r].status == Pending || (views[0].raws[r].status == Processing && !NoReaps(plan))
  {
    var n := |claims| - 1;
    LoopMovesRow(cfg, views, claims, plan, r);
    assert views[n + 1].raws[r].status != Pending;
    if NoReaps(plan) && views[0].raws[r].status == Processing {
      ProcessingIsLeftAlone(cfg, views, claims, plan, r);
    }
  }

  // Entity and event tables.

  /** The persists of the successful calls, in order. */
  ghost function Persists(views: seq<Db>, claims: seq<Option<RawId>>, plan: Schedule): seq<Persisted>
    requires |views| == |claims| + 1
    requires forall i :: 0 <= i < |claims| && claims[i].Some? ==> claims[i].value in views[i].raws
  {
    if claims == [] then []
    else
      var n := |claims| - 1;
      Persists(views[..n + 1], claims[..n], plan) + PersistOf(views[n], claims[n], plan.outcomes(n), plan.clock(n))
  }

  ghost function PersistOf(db: Db, claimed: Option<RawId>, outcome: Outcome, now: int): seq<Persisted>
    requires claimed.Some? ==> claimed.value in db.raws
  {
    if claimed.Some? && outcome.Succeeds() then
      [Persisted(claimed.value, db.raws[claimed.value].vendorHint, outcome.event, now)]
    else []
  }

  lemma ClaimsExist(cfg: Config, views: seq<Db>, claims: seq<Option<RawId>>, plan: Schedule)
    requires IsLoop(cfg, views, claims, plan)
    ensures forall i :: 0 <= i < |claims| && claims[i].Some? ==> claims[i].value in views[i].raws
  {
    forall i | 0 <= i < |claims| && claims[i].Some?
      ensures claims[i].value in views[i].raws
    {
      PassMovesRow(cfg, views[i], claims[i], views[i + 1], plan, i, claims[i].value);
    }
  }

  lemma PassPersists(cfg: Config, before: Db, claimed: Option<RawId>, after: Db, plan: Schedule, i: nat, kind: Kind)
    requires IsPlanned(cfg, before, claimed, after, plan, i)
    requires claimed.Some? ==> claimed.value in before.raws
    ensures after.StoreOf(kind)
            == Replayed(before.StoreOf(kind), kind, PersistOf(before, claimed, plan.outcomes(i), plan.clock(i)))
  {
    var ps := PersistOf(before, claimed, plan.outcomes(i), plan.clock(i));
    if ps == [] {
    } else {
      assert ps[..0] == [];
    }
  }

  /** The passes leave the tables that the successful calls, replayed in order, leave. */
  lemma {:induction false} LoopIsReplay(cfg: Config, views: seq<Db>, claims: seq<Option<RawId>>, plan: Schedule,
                                        kind: Kind)
    requires IsLoop(cfg, views, claims, plan)
    requires forall i :: 0 <= i < |claims| && claims[i].Some? ==> claims[i].value in views[i].raws
    ensures views[|claims|].StoreOf(kind) == Replayed(views[0].StoreOf(kind), kind, Persists(views, claims, plan))
  {
    if claims == [] {
    } else {
      var n := |claims| - 1;
      LoopPrefix(cfg, views, claims, plan);
      LoopIsReplay(cfg, views[..n + 1], claims[..n], plan, kind);
      PassPersists(cfg, views[n], claims[n], views[n + 1], plan, n, kind);
      ReplayedConcat(views[0].StoreOf(kind), kind, Persists(views[..n + 1], claims[..n], plan),
                     PersistOf(views[n], claims[n], plan.outcomes(n), plan.clock(n)));
    }
  }

  lemma {:induction false} SuccessIsPersist(views: seq<Db>, claims: seq<Option<RawId>>, plan: Schedule, i: nat)
    returns (j: nat)
    requires |views| == |claims| + 1
    requires forall i :: 0 <= i < |claims| && claims[i].Some? ==> claims[i].value in views[i].raws
    requires i < |claims| && claims[i].Some? && plan.outcomes(i).Succeeds()
    ensures j < |Persists(views, claims, plan)|
    ensures Persists(views, claims, plan)[j].raw == claims[i].value
    ensures Persists(views, claims, plan)[j].event == plan.outcomes(i).event
  {
    var n := |claims| - 1;
    if i == n {
      j := |Persists(views[..n + 1], claims[..n], plan)|;
    } else {
      j := SuccessIsPersist(views[..n + 1], claims[..n], plan, i);
    }
  }

  /** Every successful call of the passes has recorded its event, if it has an entity kind. */
  lemma SuccessIsRecorded(cfg: Config, views: seq<Db>, claims: seq<Option<RawId>>, plan: Schedule, i: nat, kind: Kind)
    requires IsLoop(cfg, views, claims, plan) && i < |claims| && claims[i].Some? && plan.outcomes(i).Succeeds()
    requires plan.outcomes(i).event.payload.EntityKind() == Some(kind)
    ensures Recorded(views[|claims|].StoreOf(kind).events, claims[i].value)
  {
    ClaimsExist(cfg, views, claims, plan);
    LoopIsReplay(cfg, views, claims, plan, kind);
    var j := SuccessIsPersist(views, claims, plan, i);
    PersistedIsInHistory(views[0].StoreOf(kind), kind, Persists(views, claims, plan), j);
  }

  /** If every call succeeds, every row that was pending is worked on once and ends processed, its event recorded. */
  lemma AllSucceed(cfg: Config, views: seq<Db>, claims: seq<Option<RawId>>, plan: Schedule, r: RawId) returns (i: nat)
    requires IsDrain(cfg, views, claims, plan) && forall i :: plan.outcomes(i).Succeeds()
    requires r in views[0].raws && views[0].raws[r].status == Pending
    ensures i < |claims| && claims[i] == Some(r) && plan.outcomes(i).Classified?
    ensures r in views[|claims|].raws && views[|claims|].raws[r].status == Processed
    ensures var kind := plan.outcomes(i).event.payload.EntityKind();
            kind.Some? ==> Recorded(views[|claims|].StoreOf(kind.value).events, r)
  {
    DrainFinishesRow(cfg, views, claims, plan, r);
    i :| 0 <= i < |claims| && claims[i] == Some(r);
    assert plan.outcomes(i).Succeeds();
    var kind := plan.outcomes(i).event.payload.EntityKind();
    if kind.Some? {
      SuccessIsRecorded(cfg, views, claims, plan, i, kind.value);
    }
  }

  // The number of calls.

  /** The calls that did work. */
  function CallsWorked(claims: seq<Option<RawId>>): nat {
    if claims == [] then 0
    else CallsWorked(claims[..|claims| - 1]) + if claims[|claims| - 1].Some? then 1 else 0
  }

  lemma {:induction false} DueKeepsWork(cfg: Config, db: Db, reap: Option<int>, bound: nat)
    ensures Work(cfg, Due(cfg, db, reap).raws, bound, true) == Work(cfg, db.raws, bound, true)
  {
    if reap.Some? {
      ReapKeepsWork(cfg, db.raws, reap.value - cfg.window, bound);
    }
  }

  /** Every call that does work takes at least one unit of what is left, and exactly one if it fails. */
  lemma PassWorks(cfg: Config, before: Db, claimed: Option<RawId>, after: Db, plan: Schedule, i: nat, bound: nat,
                  held: bool)
    requires IsPlanned(cfg, before, claimed, after, plan, i) && (held || plan.reaps(i).None?)
    requires forall r :: r in before.raws ==> r < bound
    ensures Work(cfg, after.raws, bound, held) + (if claimed.Some? then 1 else 0) <= Work(cfg, before.raws, bound, held)
    ensures !plan.outcomes(i).Succeeds() ==>
              Work(cfg, after.raws, bound, held) + (if claimed.Some? then 1 else 0)
              == Work(cfg, before.raws, bound, held)
  {
    if held {
      DueKeepsWork(cfg, before, plan.reaps(i), bound);
    }
    if claimed.Some? {
      var mid := Due(cfg, before, plan.reaps(i));
      ProcessOneWorks(cfg, mid, claimed.value, plan.outcomes(i), plan.clock(i), bound, held);
    }
  }

  /** The calls that did work are at most the work there was, and exactly that less what is left if every call fails. */
  lemma {:induction false} LoopWorks(cfg: Config, views: seq<Db>, claims: seq<Option<RawId>>, plan: Schedule,
                                     bound: nat, held: bool)
    requires IsLoop(cfg, views, claims, plan) && (held || NoReaps(plan))
    requires forall r :: r in views[0].raws ==> r < bound
    ensures views[|claims|].raws.Keys == views[0].raws.Keys
    ensures CallsWorked(claims) + Work(cfg, views[|claims|].raws, bound, held) <= Work(cfg, views[0].raws, bound, held)
    ensures (forall i :: !plan.outcomes(i).Succeeds()) ==>
              CallsWorked(claims) + Work(cfg, views[|claims|].raws, bound, held)
              == Work(cfg, views[0].raws, bound, held)
  {
    if claims == [] {
    } else {
      var n := |claims| - 1;
      LoopPrefix(cfg, views, claims, plan);
      LoopWorks(cfg, views[..n + 1], claims[..n], plan, bound, held);
      PassMovesRow(cfg, views[n], claims[n], views[n + 1], plan, n, 0);
      PassWorks(cfg, views[n], claims[n], views[n + 1], plan, n, bound, held);
    }
  }

  lemma {:induction false} NothingLeft(cfg: Config, raws: map<RawId, RawRow>, bound: nat)
    requires forall r :: r in raws ==> raws[r].status != Pending
    ensures Work(cfg, raws, bound, false) == 0
  {
    if bound == 0 {
    } else {
      NothingLeft(cfg, raws, bound - 1);
    }
  }

  /** Without reaps the bound is exact: if every call fails, a drain makes as many calls as the pending rows cost. */
  lemma DrainIsExact(cfg: Config, views: seq<Db>, claims: seq<Option<RawId>>, plan: Schedule, bound: nat)
    requires IsDrain(cfg, views, claims, plan) && NoReaps(plan) && forall i :: !plan.outcomes(i).Succeeds()
    requires forall r :: r in views[0].raws ==> r < bound
    ensures CallsWorked(claims) == Work(cfg, views[0].raws, bound, false)
  {
    LoopWorks(cfg, views, claims, plan, bound, false);
    NothingLeft(cfg, views[|claims|].raws, bound);
  }
}
