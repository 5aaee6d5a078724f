/** Row updates of the worker (app/workers/ingest_worker.py) and of the manual retry (app/services/retry.py). */
module Queue {
  import opened Options
  import opened Tables

  /** claim_one: attempts stays as it is, so a crash costs no budget. */
  function Claimed(row: RawRow, now: int): RawRow {
    row.(status := Processing, lockedAt := Some(now))
  }

  /** mark_failed: it does not look at the current status. */
  function FailureMarked(row: RawRow, error: string, maxAttempts: nat): RawRow {
    row.(attempts := row.attempts + 1,
         lastError := Some(error),
         lockedAt := None,
         status := if row.attempts + 1 >= maxAttempts then Failed else Pending)
  }

  predicate Stale(row: RawRow, threshold: int) {
    row.status == Processing && row.lockedAt.Some? && row.lockedAt.value < threshold
  }

  function ReapedRow(row: RawRow, threshold: int): RawRow {
    if Stale(row, threshold) then row.(status := Pending, lockedAt := None) else row
  }

  /** reap_stale: one UPDATE over the whole table. */
  function Reaped(raws: map<RawId, RawRow>, threshold: int): map<RawId, RawRow> {
    map r | r in raws :: ReapedRow(raws[r], threshold)
  }

  /** The rows a manual retry does not refuse; it does not refuse a row that is processing. */
  predicate Acquirable(row: RawRow) {
    row.status != Duplicate && row.status != Processed
  }

  /** Phase 1 of retry_raw_event. */
  function Acquired(row: RawRow, now: int): RawRow {
    row.(status := Processing, lockedAt := Some(now), attempts := row.attempts + 1, lastError := None)
  }

  /** Phase 3 of retry_raw_event: locked_at and attempts stay as they are. */
  function RetryFailed(row: RawRow, error: string): RawRow {
    row.(status := Pending, lastError := Some(error))
  }

  /** What the claim query may return when the rows in `locked` are locked by other open transactions. */
  predicate Oldest(raws: map<RawId, RawRow>, locked: set<RawId>, r: RawId) {
    && r in raws && raws[r].status == Pending && r !in locked
    && forall q :: q in raws && raws[q].status == Pending && q !in locked ==> raws[r].receivedAt <= raws[q].receivedAt
  }

  /** ORDER BY received_at LIMIT 1 finds a row in any non-empty selection. */
  lemma {:induction false} SomeOldest(raws: map<RawId, RawRow>, among: set<RawId>) returns (r: RawId)
    requires among != {} && among <= raws.Keys
    ensures r in among && forall q :: q in among ==> raws[r].receivedAt <= raws[q].receivedAt
  {
    var q :| q in among;
    if among == {q} {
      r := q;
    } else {
      var rest := among - {q};
      assert among == rest + {q};
      r := SomeOldest(raws, rest);
      if raws[q].receivedAt < raws[r].receivedAt {
        r := q;
      }
    }
  }
}

/** The rows and answers of insert_raw_event (app/services/ingestion.py). */
module Ingestion {
  import opened Options
  import opened Tables

  datatype IngestResult = IngestResult(rawEventId: RawId, duplicate: bool, duplicateOf: Option<RawId>)

  function NewPrimary(vendor: string, hash: string, now: int): RawRow {
    RawRow(vendor, hash, now, None, Pending, 0, None, None, None)
  }

  function NewDuplicate(vendor: string, hash: string, parent: RawId, now: int): RawRow {
    RawRow(vendor, hash, now, Some(parent), Duplicate, 0, None, None, None)
  }

  /** The table after a whole call that found `parent`, or no primary row of the key. */
  function Ingested(raws: map<RawId, RawRow>, vendor: string, hash: string, id: RawId, parent: Option<RawId>, now: int)
    : map<RawId, RawRow>
  {
    raws[id := if parent.Some? then NewDuplicate(vendor, hash, parent.value, now) else NewPrimary(vendor, hash, now)]
  }

  /** Row r occupies the partial unique index for the key. */
  predicate IsPrimary(raws: map<RawId, RawRow>, vendor: string, hash: string, r: RawId) {
    r in raws && raws[r].Primary() && raws[r].SameKey(vendor, hash)
  }

  ghost predicate PrimaryExists(raws: map<RawId, RawRow>, vendor: string, hash: string) {
    exists r :: IsPrimary(raws, vendor, hash, r)
  }

  /** What the phase-2 query may return: ORDER BY received_at LIMIT 1. */
  ghost predicate IsParent(raws: map<RawId, RawRow>, vendor: string, hash: string, r: RawId) {
    IsPrimary(raws, vendor, hash, r)
    && forall q :: IsPrimary(raws, vendor, hash, q) ==> raws[r].receivedAt <= raws[q].receivedAt
  }
}
