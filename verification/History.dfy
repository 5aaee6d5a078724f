/** The entity row as a cache of its event history: "jump to latest, never roll back". */
module History {
  import opened Options
  import opened Tables
  import opened Normalization

  /** Row i is the first committed among the history rows of `key` with the greatest event_at. */
  ghost predicate IsLatest(events: seq<EventRow>, key: EntityKey, i: int) {
    && 0 <= i < |events|
    && events[i].key == key
    && (forall j :: 0 <= j < |events| && events[j].key == key ==>
          events[j].eventAt <= events[i].eventAt && (j < i ==> events[j].eventAt < events[i].eventAt))
  }

  ghost predicate TakenFrom(e: Entity, row: EventRow) {
    e.currentState == Some(row.state) && e.lastEventAt == Some(row.eventAt) && e.attributes == row.attributes
  }

  ghost predicate CachesLatest(st: Store, key: EntityKey)
    requires key in st.entities
  {
    exists i :: IsLatest(st.events, key, i) && TakenFrom(st.entities[key], st.events[i])
  }

  /** Every history row has its entity, and every entity row caches the latest event of its history. */
  ghost predicate CacheAgrees(st: Store) {
    && (forall i :: 0 <= i < |st.events| ==> st.events[i].key in st.entities)
    && (forall key :: key in st.entities ==> CachesLatest(st, key))
  }

  /** Of the history rows with the greatest event_at of the entity, the first committed one is the one it shows. */
  lemma FirstLatestIsShown(st: Store, key: EntityKey, i: nat)
    requires CacheAgrees(st) && key in st.entities && i < |st.events| && st.events[i].key == key
    requires forall j :: 0 <= j < |st.events| && st.events[j].key == key ==>
               st.events[j].eventAt <= st.events[i].eventAt
    requires forall j :: 0 <= j < i && st.events[j].key == key ==> st.events[j].eventAt < st.events[i].eventAt
    ensures st.entities[key].currentState == Some(st.events[i].state)
    ensures st.entities[key].lastEventAt == Some(st.events[i].eventAt)
    ensures st.entities[key].attributes == st.events[i].attributes
  {
    assert CachesLatest(st, key);
    var k :| IsLatest(st.events, key, k) && TakenFrom(st.entities[key], st.events[k]);
    assert k == i;
  }

  /** At most one history row per raw row: the unique index on raw_event_id. */
  ghost predicate UniqueRaws(events: seq<EventRow>) {
    forall i, j :: 0 <= i < j < |events| ==> events[i].rawId != events[j].rawId
  }

  lemma RecordKeepsUniqueRaws(st: Store, row: EventRow, now: int)
    requires UniqueRaws(st.events)
    ensures UniqueRaws(Record(st, row, now).events)
    ensures st.events <= Record(st, row, now).events
    ensures Recorded(Record(st, row, now).events, row.rawId)
  {
    var st' := Record(st, row, now);
    if !Recorded(st.events, row.rawId) {
      assert st'.events[|st.events|] == row;
    }
  }

  lemma LatestOfOtherKey(events: seq<EventRow>, row: EventRow, key: EntityKey, i: int)
    requires key != row.key && IsLatest(events, key, i)
    ensures IsLatest(events + [row], key, i)
  {
  }

  /** A persist of a raw row without history keeps the agreement. */
  lemma FreshRecordAgrees(st: Store, row: EventRow, now: int)
    requires CacheAgrees(st) && !Recorded(st.events, row.rawId)
    ensures CacheAgrees(Record(st, row, now))
  {
    var st' := Record(st, row, now);
    var n := |st.events|;
    assert st'.events == st.events + [row];
    forall key | key in st'.entities
      ensures CachesLatest(st', key)
    {
      if key != row.key {
        var i :| IsLatest(st.events, key, i) && TakenFrom(st.entities[key], st.events[i]);
        LatestOfOtherKey(st.events, row, key, i);
        assert TakenFrom(st'.entities[key], st'.events[i]);
      } else if key in st.entities {
        var i :| IsLatest(st.events, key, i) && TakenFrom(st.entities[key], st.events[i]);
        var k := if st.events[i].eventAt < row.eventAt then n else i;
        assert IsLatest(st'.events, key, k);
        assert TakenFrom(st'.entities[key], st'.events[k]);
      } else {
        assert IsLatest(st'.events, key, n);
        assert TakenFrom(st'.entities[key], st'.events[n]);
      }
    }
  }

  /** A repeated persist that brings nothing newer changes updated_at only, and keeps the agreement. */
  lemma StaleRecordAgrees(st: Store, row: EventRow, now: int)
    requires CacheAgrees(st) && Recorded(st.events, row.rawId)
    requires row.key in st.entities && !Newer(st.entities[row.key], row)
    ensures Record(st, row, now) == st.(entities := st.entities[row.key := st.entities[row.key].(updatedAt := now)])
    ensures CacheAgrees(Record(st, row, now))
  {
    var st' := Record(st, row, now);
    assert st'.entities == st.entities[row.key := st.entities[row.key].(updatedAt := now)];
    forall key | key in st'.entities
      ensures CachesLatest(st', key)
    {
      var i :| IsLatest(st.events, key, i) && TakenFrom(st.entities[key], st.events[i]);
      assert TakenFrom(st'.entities[key], st'.events[i]);
    }
  }

  lemma HistoryRowNotNewer(st: Store, k: int)
    requires CacheAgrees(st) && 0 <= k < |st.events|
    ensures st.events[k].key in st.entities && !Newer(st.entities[st.events[k].key], st.events[k])
  {
    var key := st.events[k].key;
    assert CachesLatest(st, key);
    var i :| IsLatest(st.events, key, i) && TakenFrom(st.entities[key], st.events[i]);
  }

  /** A repeated persist with something newer moves the entity without adding to its history. */
  lemma NewerRepeatDisagrees(st: Store, row: EventRow, now: int)
    requires CacheAgrees(st) && Recorded(st.events, row.rawId)
    requires row.key in st.entities ==> Newer(st.entities[row.key], row)
    ensures !CacheAgrees(Record(st, row, now))
  {
    var st' := Record(st, row, now);
    assert st'.events == st.events && st'.entities[row.key].lastEventAt == Some(row.eventAt);
    forall i | IsLatest(st.events, row.key, i)
      ensures !TakenFrom(st'.entities[row.key], st.events[i])
    {
      HistoryRowNotNewer(st, i);
    }
    assert !CachesLatest(st', row.key);
  }

  /**
   * Exactly when one persist keeps cache and history in agreement, whatever the classifier returned: the raw row has
   * no history row yet, or its entity exists and is not older than the event.
   */
  lemma AgreementKeptIff(st: Store, row: EventRow, now: int)
    requires CacheAgrees(st)
    ensures CacheAgrees(Record(st, row, now)) <==>
            !Recorded(st.events, row.rawId) || (row.key in st.entities && !Newer(st.entities[row.key], row))
  {
    if !Recorded(st.events, row.rawId) {
      FreshRecordAgrees(st, row, now);
    } else if row.key in st.entities && !Newer(st.entities[row.key], row) {
      StaleRecordAgrees(st, row, now);
    } else {
      NewerRepeatDisagrees(st, row, now);
    }
  }

  /** No entity is without a last_event_at, and none is older than an event of its history. */
  ghost predicate Anchored(st: Store) {
    && (forall key :: key in st.entities ==> st.entities[key].lastEventAt.Some?)
    && (forall i :: 0 <= i < |st.events| ==>
          st.events[i].key in st.entities && st.events[i].eventAt <= st.entities[st.events[i].key].lastEventAt.value)
  }

  /** Entities stay, never move back in time, and change state or attributes only by moving forward. */
  ghost predicate NeverRolledBack(st: Store, st': Store)
    requires Anchored(st) && Anchored(st')
  {
    forall key :: key in st.entities ==>
      key in st'.entities
      && (var e, e' := st.entities[key], st'.entities[key];
          e.lastEventAt.value < e'.lastEventAt.value || e' == e.(updatedAt := e'.updatedAt))
  }

  /** Holds for any classifier: nothing is assumed about the row or about earlier persists of the same raw row. */
  lemma RecordNeverRollsBack(st: Store, row: EventRow, now: int)
    requires Anchored(st)
    ensures Anchored(Record(st, row, now))
    ensures NeverRolledBack(st, Record(st, row, now))
  {
  }

  /** Equality of stores up to the bookkeeping column updated_at. */
  ghost predicate SameEntities(a: map<EntityKey, Entity>, b: map<EntityKey, Entity>) {
    a.Keys == b.Keys && forall key :: key in a ==> a[key].(updatedAt := 0) == b[key].(updatedAt := 0)
  }

  ghost predicate SameStore(a: Store, b: Store) {
    a.events == b.events && SameEntities(a.entities, b.entities)
  }

  lemma RecordRespectsSameStore(a: Store, b: Store, row: EventRow, now: int, now': int)
    requires SameStore(a, b)
    ensures SameStore(Record(a, row, now), Record(b, row, now'))
  {
    if row.key in a.entities {
      assert a.entities[row.key].(updatedAt := 0) == b.entities[row.key].(updatedAt := 0);
    }
  }

  /** No two different history rows of one entity carry the same event_at. */
  ghost predicate DistinctTimes(rows: seq<EventRow>) {
    forall i, j :: 0 <= i < |rows| && 0 <= j < |rows|
                   && rows[i].key == rows[j].key && rows[i].eventAt == rows[j].eventAt
                   ==> rows[i] == rows[j]
  }

  lemma SameMembers(a: seq<EventRow>, b: seq<EventRow>)
    requires multiset(a) == multiset(b)
    ensures forall row :: row in a <==> row in b
  {
    forall row
      ensures row in a <==> row in b
    {
      assert row in a <==> row in multiset(a);
      assert row in b <==> row in multiset(b);
    }
  }

  /** Two stores in agreement with the same bag of history rows have the same entities. */
  lemma HistoryDeterminesEntities(a: Store, b: Store)
    requires CacheAgrees(a) && CacheAgrees(b)
    requires multiset(a.events) == multiset(b.events) && DistinctTimes(a.events)
    ensures SameEntities(a.entities, b.entities)
  {
    SameMembers(a.events, b.events);
    forall key | key in a.entities
      ensures key in b.entities && a.entities[key].(updatedAt := 0) == b.entities[key].(updatedAt := 0)
    {
      assert CachesLatest(a, key);
      var i :| IsLatest(a.events, key, i) && TakenFrom(a.entities[key], a.events[i]);
      assert a.events[i] in b.events;
      assert CachesLatest(b, key);
      var j :| IsLatest(b.events, key, j) && TakenFrom(b.entities[key], b.events[j]);
      assert b.events[j] in a.events;
    }
    forall key | key in b.entities
      ensures key in a.entities
    {
      assert CachesLatest(b, key);
      var j :| IsLatest(b.events, key, j) && TakenFrom(b.entities[key], b.events[j]);
      assert b.events[j] in a.events;
    }
  }
}
