/** The service and worker functions as they run against the database: statement by statement, in transactions. */
module Services {
  import opened Options
  import opened Events
  import opened Tables
  import opened Normalization
  import opened Queue
  import opened Ingestion
  import opened Pipeline
  import opened Calls
  import opened Drains

  datatype RetryResult =
    | NotFound
    | Refused(status: Status)
    | Raised(error: string)
    | Returned(row: RawRow)

  /** Entities may have been added, without a state yet, or had their updated_at set; no state has moved. */
  ghost predicate OnlyTouched(before: map<EntityKey, Entity>, after: map<EntityKey, Entity>, body: Payload, now: int) {
    && (forall key :: key in before ==>
          key in after && (after[key] == before[key] || after[key] == before[key].(updatedAt := now)))
    && (forall key :: key in after && key !in before ==> after[key] == Entity(None, None, body, now))
  }

  class Database {
    var raws: map<RawId, RawRow>
    var shipments: Store
    var invoices: Store

    function View(): Db
      reads this
    {
      Db(raws, shipments, invoices)
    }

    constructor ()
      ensures View() == EMPTY_DB
    {
      raws, shipments, invoices := map[], EMPTY_STORE, EMPTY_STORE;
    }

    /** Step 2 of persist_normalized. */
    method UpsertEntity(kind: Kind, row: EventRow, now: int)
      modifies this
      ensures View() == old(View()).WithStore(kind, Upserted(old(View().StoreOf(kind)), row, now))
    {
      if kind.ShipmentKind? {
        shipments := Upserted(shipments, row, now);
      } else {
        invoices := Upserted(invoices, row, now);
      }
    }

    /** Step 3. */
    method InsertEvent(kind: Kind, row: EventRow)
      modifies this
      ensures View() == old(View()).WithStore(kind, EventInserted(old(View().StoreOf(kind)), row))
    {
      if kind.ShipmentKind? {
        shipments := EventInserted(shipments, row);
      } else {
        invoices := EventInserted(invoices, row);
      }
    }

    /** Step 4. */
    method AdvanceState(kind: Kind, row: EventRow, now: int)
      requires row.key in View().StoreOf(kind).entities
      modifies this
      ensures View() == old(View()).WithStore(kind, StateAdvanced(old(View().StoreOf(kind)), row, now))
      ensures var e := old(View()).StoreOf(kind).entities[row.key];
              row.key in View().StoreOf(kind).entities
              && View().StoreOf(kind).entities[row.key] ==
                   if e.lastEventAt.Some? && row.eventAt <= e.lastEventAt.value then e
                   else Entity(Some(row.state), Some(row.eventAt), row.attributes, now)
    {
      if kind.ShipmentKind? {
        shipments := StateAdvanced(shipments, row, now);
      } else {
        invoices := StateAdvanced(invoices, row, now);
      }
    }

    /** The statements of persist_normalized, the one numbered failAt raising; those before it stay for the caller. */
    method PersistNormalized(raw: RawId, event: NormalizedEvent, now: int, keep: bool, failAt: nat) returns (ok: bool)
      requires raw in raws
      modifies this
      ensures ok <==> failAt >= Statements(event)
      ensures View() == StatementsDone(old(View()), raw, event, now, keep, failAt)
      ensures !ok ==> raws == old(raws) && (failAt == 0 ==> View() == old(View()))
      ensures failAt <= 1 ==> shipments.events == old(shipments).events && invoices.events == old(invoices).events
      ensures failAt <= 2 && !ok ==>
                && OnlyTouched(old(shipments).entities, shipments.entities, event.payload, now)
                && OnlyTouched(old(invoices).entities, invoices.entities, event.payload, now)
    {
      var p := Persisted(raw, raws[raw].vendorHint, event, now);
      var kind := event.payload.EntityKind();
      if kind.Some? {
        var row := p.Row();
        if failAt == 0 {
          return false;
        }
        UpsertEntity(kind.value, row, now);
        if failAt == 1 {
          return false;
        }
        InsertEvent(kind.value, row);
        if failAt == 2 {
          return false;
        }
        AdvanceState(kind.value, row, now);
        if failAt == 3 {
          return false;
        }
      } else if failAt == 0 {
        return false;
      }
      raws := raws[raw := MarkedProcessed(raws[raw], event, now, keep)];
      ok := true;
    }

    /** session_scope around persist_normalized: commit, or roll back when a statement or the commit raises. */
    method PersistInScope(raw: RawId, event: NormalizedEvent, now: int, keep: bool, failAt: nat) returns (ok: bool)
      requires raw in raws
      modifies this
      ensures ok <==> failAt > Statements(event)
      ensures View() == if ok then Persist(old(View()), raw, event, now, keep) else old(View())
    {
      var committed := View();
      ok := PersistNormalized(raw, event, now, keep, failAt);
      if ok && failAt == Statements(event) {
        ok := false;
      }
      if !ok {
        raws, shipments, invoices := committed.raws, committed.shipments, committed.invoices;
      }
    }

    /** claim_one, with the rows in `locked` locked by other open transactions. */
    method ClaimOne(locked: set<RawId>, now: int) returns (claimed: Option<RawId>)
      modifies this`raws
      ensures claimed.None? <==> forall q :: q in old(raws) && old(raws)[q].status == Pending ==> q in locked
      ensures claimed.None? ==> raws == old(raws)
      ensures claimed.Some? ==>
                var r := claimed.value;
                && r in old(raws) && old(raws)[r].status == Pending && r !in locked
                && (forall q :: q in old(raws) && old(raws)[q].status == Pending && q !in locked ==>
                      old(raws)[r].receivedAt <= old(raws)[q].receivedAt)
                && raws == old(raws)[r := old(raws)[r].(status := Processing, lockedAt := Some(now))]
    {
      var free := set q | q in raws && raws[q].status == Pending && q !in locked;
      if free == {} {
        assert forall q :: q in raws && raws[q].status == Pending && q !in locked ==> q in free;
        return None;
      }
      ghost var oldest := SomeOldest(raws, free);
      var r :| r in free && forall q :: q in free ==> raws[r].receivedAt <= raws[q].receivedAt;
      assert forall q :: q in raws && raws[q].status == Pending && q !in locked ==> q in free;
      raws := raws[r := raws[r].(status := Processing, lockedAt := Some(now))];
      claimed := Some(r);
    }

    /** mark_failed. */
    method MarkFailed(raw: RawId, error: string, maxAttempts: nat)
      modifies this`raws
      ensures raws.Keys == old(raws).Keys && forall r :: r in raws && r != raw ==> raws[r] == old(raws)[r]
      ensures raw in raws ==>
                && raws[raw].attempts == old(raws)[raw].attempts + 1
                && raws[raw].status == (if raws[raw].attempts < maxAttempts then Pending else Failed)
                && raws[raw].lastError == Some(error) && raws[raw].lockedAt.None?
                && raws[raw].processedAt == old(raws)[raw].processedAt && raws[raw].SameIdentity(old(raws)[raw])
    {
      if raw !in raws {
        return;
      }
      var row := raws[raw];
      row := row.(attempts := row.attempts + 1);
      row := row.(lastError := Some(error));
      row := row.(lockedAt := None);
      row := row.(status := if row.attempts >= maxAttempts then Failed else Pending);
      raws := raws[raw := row];
    }

    /** reap_stale. */
    method ReapStale(now: int, window: nat) returns (recovered: nat)
      modifies this`raws
      ensures raws.Keys == old(raws).Keys
      ensures forall r :: r in raws ==>
                var row := old(raws)[r];
                raws[r] == if row.status == Processing && row.lockedAt.Some? && row.lockedAt.value < now - window
                           then row.(status := Pending, lockedAt := None) else row
      ensures recovered == |set r | r in raws && raws[r] != old(raws)[r]|
    {
      var threshold := now - window;
      var stale := set r | r in raws && Stale(raws[r], threshold);
      raws := map r | r in raws :: if r in stale then raws[r].(status := Pending, lockedAt := None) else raws[r];
      recovered := |stale|;
      assert stale == set r | r in raws && raws[r] != old(raws)[r];
    }

    /** process_one, with no other agent in between; `claimed` is the row it worked on. */
    method ProcessOne(cfg: Config, locked: set<RawId>, outcome: Outcome, now: int)
      returns (didWork: bool, claimed: Option<RawId>)
      modifies this
      ensures didWork <==> claimed.Some?
      ensures didWork <==> exists q :: q in old(raws) && old(raws)[q].status == Pending && q !in locked
      ensures !didWork ==> View() == old(View())
      ensures didWork ==> Oldest(old(raws), locked, claimed.value)
      ensures didWork ==> View() == ProcessedOne(cfg, old(View()), claimed.value, outcome, now)
      ensures didWork ==>
                var r := claimed.value;
                && r in raws && raws.Keys == old(raws).Keys
                && (forall q :: q in raws && q != r ==> raws[q] == old(raws)[q])
                && raws[r].SameIdentity(old(raws)[r])
                && (if outcome.Succeeds() then
                      && raws[r].status == Processed && raws[r].processedAt == Some(now)
                      && raws[r].lockedAt == Some(now)
                      && raws[r].attempts == old(raws)[r].attempts
                    else
                      && shipments == old(shipments) && invoices == old(invoices)
                      && raws[r].attempts == old(raws)[r].attempts + 1 && raws[r].lockedAt.None?
                      && raws[r].status == (if raws[r].attempts < cfg.maxAttempts then Pending else Failed)
                      && raws[r].lastError == Some(outcome.error) && raws[r].processedAt == old(raws)[r].processedAt)
    {
      claimed := ClaimOne(locked, now);
      if claimed.None? {
        return false, None;
      }
      didWork := true;
      var r := claimed.value;
      if outcome.ClassifyRaises? {
        MarkFailed(r, outcome.error, cfg.maxAttempts);
        return;
      }
      var ok := PersistInScope(r, outcome.event, now, cfg.keepUnclassified, outcome.failAt);
      if !ok {
        MarkFailed(r, outcome.error, cfg.maxAttempts);
      }
    }

    /** retry_raw_event, with no other agent in between. */
    method RetryRawEvent(cfg: Config, raw: RawId, outcome: Outcome, now: int) returns (result: RetryResult)
      modifies this
      ensures result.NotFound? <==> raw !in old(raws)
      ensures raw in old(raws) ==>
                (result.Refused? <==> old(raws)[raw].status == Duplicate || old(raws)[raw].status == Processed)
      ensures result.Refused? ==> result.status == old(raws)[raw].status
      ensures result.NotFound? || result.Refused? ==> View() == old(View())
      ensures result.Raised? || result.Returned? ==>
                && View() == Retried(cfg, old(View()), raw, outcome, now)
                && (result.Returned? <==> outcome.Succeeds())
                && raws.Keys == old(raws).Keys && (forall q :: q in raws && q != raw ==> raws[q] == old(raws)[q])
                && raws[raw].SameIdentity(old(raws)[raw])
                && raws[raw].attempts == old(raws)[raw].attempts + 1 && raws[raw].lockedAt == Some(now)
      ensures result.Returned? ==>
                result.row == raws[raw] && raws[raw].status == Processed && raws[raw].processedAt == Some(now)
      ensures result.Raised? ==>
                && result.error == outcome.error && shipments == old(shipments) && invoices == old(invoices)
                && raws[raw].status == Pending && raws[raw].lastError == Some(outcome.error)
                && raws[raw].processedAt == old(raws)[raw].processedAt
    {
      if raw !in raws {
        return NotFound;
      }
      if raws[raw].status == Duplicate {
        return Refused(Duplicate);
      }
      if raws[raw].status == Processed {
        return Refused(Processed);
      }
      var row := raws[raw];
      row := row.(status := Processing);
      row := row.(lockedAt := Some(now));
      row := row.(attempts := row.attempts + 1);
      row := row.(lastError := None);
      raws := raws[raw := row];
      var ok := false;
      if outcome.Classified? {
        ok := PersistInScope(raw, outcome.event, now, cfg.keepUnclassified, outcome.failAt);
      }
      if !ok {
        row := raws[raw].(status := Pending);
        row := row.(lastError := Some(outcome.error));
        raws := raws[raw := row];
        return Raised(outcome.error);
      }
      result := Returned(raws[raw]);
    }

    /** insert_raw_event, with no other agent in between. */
    method InsertRawEvent(vendor: string, hash: string, id: RawId, now: int) returns (answer: IngestResult)
      requires id !in raws
      modifies this`raws
      ensures answer.rawEventId == id
      ensures answer.duplicate <==>
                exists q :: q in old(raws) && old(raws)[q].duplicateOf.None? && old(raws)[q].SameKey(vendor, hash)
      ensures answer.duplicate <==> answer.duplicateOf.Some?
      ensures answer.duplicate ==>
                var parent := answer.duplicateOf.value;
                && parent in old(raws) && old(raws)[parent].duplicateOf.None? && old(raws)[parent].SameKey(vendor, hash)
                && forall q ::
                     q in old(raws) && old(raws)[q].duplicateOf.None? && old(raws)[q].SameKey(vendor, hash) ==>
                       old(raws)[parent].receivedAt <= old(raws)[q].receivedAt
      ensures raws == Ingested(old(raws), vendor, hash, id, answer.duplicateOf, now)
      ensures id in raws && raws.Keys == old(raws).Keys + {id} && forall r :: r in old(raws) ==> raws[r] == old(raws)[r]
      ensures raws[id].SameKey(vendor, hash) && raws[id].receivedAt == now && raws[id].duplicateOf == answer.duplicateOf
      ensures raws[id].status == (if answer.duplicate then Duplicate else Pending) && raws[id].attempts == 0
      ensures raws[id].lastError.None? && raws[id].lockedAt.None? && raws[id].processedAt.None?
    {
      var primaries := set r | r in raws && IsPrimary(raws, vendor, hash, r);
      if primaries == {} {
        assert forall r :: IsPrimary(raws, vendor, hash, r) ==> r in primaries;
        assert forall q :: q in raws && raws[q].duplicateOf.None? && raws[q].SameKey(vendor, hash) ==> q in primaries;
        raws := raws[id := NewPrimary(vendor, hash, now)];
        return IngestResult(id, false, None);
      }
      ghost var oldest := SomeOldest(raws, primaries);
      var parent :| parent in primaries && forall q :: q in primaries ==> raws[parent].receivedAt <= raws[q].receivedAt;
      assert IsPrimary(raws, vendor, hash, parent);
      assert forall q :: q in raws && raws[q].duplicateOf.None? && raws[q].SameKey(vendor, hash) ==> q in primaries;
      raws := raws[id := NewDuplicate(vendor, hash, parent, now)];
      answer := IngestResult(id, true, Some(parent));
    }

    /** One pass of the loop of run, for a single worker: a reap if one is due, at the time `reap`, and process_one. */
    method Iterate(cfg: Config, reap: Option<int>, outcome: Outcome, now: int)
      returns (didWork: bool, ghost claimed: Option<RawId>)
      modifies this
      ensures didWork <==> claimed.Some?
      ensures IsPass(cfg, old(View()), claimed, View(), reap, outcome, now)
    {
      if reap.Some? {
        var _ := ReapStale(reap.value, cfg.window);
      }
      ghost var mid := View();
      assert mid == Due(cfg, old(View()), reap);
      var row;
      didWork, row := ProcessOne(cfg, {}, outcome, now);
      claimed := row;
      ProcessOneIsPass(cfg, old(View()), claimed, View(), reap, outcome, now);
    }

    /**
     * The loop of run until process_one returns False, with the tables and the claimed row of every pass. The calls
     * that did work are at most the cost of the rows that were pending or processing, of the pending ones if nothing is
     * reaped; every row that was pending ends processed if a call on it succeeds, and failed otherwise.
     */
    method Drain(cfg: Config, plan: Schedule, ghost bound: nat)
      returns (worked: nat, ghost views: seq<Db>, ghost claims: seq<Option<RawId>>)
      requires forall r :: r in raws ==> r < bound
      modifies this
      ensures IsDrain(cfg, views, claims, plan) && views[0] == old(View()) && views[|claims|] == View()
      ensures worked == CallsWorked(claims) == |claims| - 1
      ensures worked + Work(cfg, raws, bound, true) <= Work(cfg, old(raws), bound, true)
      ensures NoReaps(plan) ==> worked <= Work(cfg, old(raws), bound, false)
      ensures raws.Keys == old(raws).Keys
      ensures forall r :: r in raws ==>
                if old(raws)[r].status == Pending || Worked(claims, r) then
                  Done(raws[r]) && (raws[r].status == Processed <==> Succeeded(claims, plan, r))
                else raws[r] == old(raws)[r]
    {
      worked := 0;
      views, claims := [View()], [];
      var didWork := true;
      while didWork
        invariant IsLoop(cfg, views, claims, plan) && views[0] == old(View()) && views[|claims|] == View()
        invariant worked == CallsWorked(claims) == if didWork then |claims| else |claims| - 1
        invariant didWork ==> forall i :: 0 <= i < |claims| ==> claims[i].Some?
        invariant !didWork ==> claims != [] && claims[|claims| - 1].None?
        invariant raws.Keys == old(raws).Keys
        decreases Work(cfg, raws, bound, true), didWork
      {
        ghost var before, claimed := View(), None;
        didWork, claimed := Iterate(cfg, plan.reaps(worked), plan.outcomes(worked), plan.clock(worked));
        PassWorks(cfg, before, claimed, View(), plan, worked, bound, true);
        PassMovesRow(cfg, before, claimed, View(), plan, worked, 0);
        LoopSnoc(cfg, views, claims, plan, claimed, View());
        views, claims := views + [View()], claims + [claimed];
        if didWork {
          worked := worked + 1;
        }
      }
      LoopWorks(cfg, views, claims, plan, bound, true);
      if NoReaps(plan) {
        LoopWorks(cfg, views, claims, plan, bound, false);
      }
      forall r | r in raws
        ensures if old(raws)[r].status == Pending || Worked(claims, r) then
                  Done(raws[r]) && (raws[r].status == Processed <==> Succeeded(claims, plan, r))
                else raws[r] == old(raws)[r]
      {
        DrainFinishesRow(cfg, views, claims, plan, r);
      }
    }
  }
}
