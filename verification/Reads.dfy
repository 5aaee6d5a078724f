/** The read path (app/services/shipments.py, app/services/invoices.py): the entity row, then its events. */
module Reads {
  import opened Options
  import opened Events
  import opened Tables
  import opened History
  import opened Pipeline
  import opened Runs

  predicate Chronological(rows: seq<EventRow>) {
    forall i, j :: 0 <= i < j < |rows| ==> rows[i].eventAt <= rows[j].eventAt
  }

  /** What list_events may return: each of the entity's events as often as the table has it, ORDER BY event_at. */
  ghost predicate IsListing(rows: seq<EventRow>, events: seq<EventRow>, key: EntityKey) {
    && Chronological(rows)
    && forall row :: multiset(rows)[row] == if row.key == key then multiset(events)[row] else 0
  }

  function Inserted(rows: seq<EventRow>, row: EventRow): (r: seq<EventRow>)
    requires Chronological(rows)
    ensures Chronological(r) && multiset(r) == multiset(rows) + multiset{row}
    ensures forall k :: 0 <= k < |r| ==> r[k] == row || r[k] in rows
  {
    if rows == [] then [row]
    else
      var last := rows[|rows| - 1];
      assert rows == rows[..|rows| - 1] + [last];
      if last.eventAt <= row.eventAt then rows + [row] else Inserted(rows[..|rows| - 1], row) + [last]
  }

  function ListEvents(events: seq<EventRow>, key: EntityKey): (rows: seq<EventRow>)
    ensures IsListing(rows, events, key)
  {
    if events == [] then []
    else
      var last := events[|events| - 1];
      assert events == events[..|events| - 1] + [last];
      var rows := ListEvents(events[..|events| - 1], key);
      if last.key == key then Inserted(rows, last) else rows
  }

  lemma ListingMembers(rows: seq<EventRow>, events: seq<EventRow>, key: EntityKey, row: EventRow)
    requires IsListing(rows, events, key)
    ensures row in rows <==> row in events && row.key == key
  {
    assert row in rows <==> row in multiset(rows);
    assert row in events <==> row in multiset(events);
  }

  lemma ListingShowsEntity(st: Store, events: seq<EventRow>, key: EntityKey, rows: seq<EventRow>)
    requires CacheAgrees(st) && st.events <= events && key in st.entities && IsListing(rows, events, key)
    ensures exists k :: 0 <= k < |rows| && TakenFrom(st.entities[key], rows[k])
    ensures st.entities[key].lastEventAt.Some?
    ensures rows != [] && rows[|rows| - 1].eventAt >= st.entities[key].lastEventAt.value
    ensures events == st.events ==> rows[|rows| - 1].eventAt == st.entities[key].lastEventAt.value
  {
    assert CachesLatest(st, key);
    var i :| IsLatest(st.events, key, i) && TakenFrom(st.entities[key], st.events[i]);
    assert events[i] == st.events[i];
    ListingMembers(rows, events, key, st.events[i]);
    var k :| 0 <= k < |rows| && rows[k] == st.events[i];
    ListingMembers(rows, events, key, rows[|rows| - 1]);
  }

  /**
   * One-sided torn read, under DET up to the first read: read an entity row, let any steps happen, then list its
   * events. The list contains the event the row was taken from, and its last event is no older than the row; it is
   * exactly as old as the entity row is by then, if DET still holds.
   */
  lemma TornRead(cfg: Config, clock: int, acts: seq<Action>, more: seq<Action>, kind: Kind, key: EntityKey,
                 rows: seq<EventRow>)
    requires DetRun(cfg, Start(clock), acts)
    requires key in Exec(cfg, Start(clock), acts).db.StoreOf(kind).entities
    requires IsListing(rows, Exec(cfg, Start(clock), acts + more).db.StoreOf(kind).events, key)
    ensures var e := Exec(cfg, Start(clock), acts).db.StoreOf(kind).entities[key];
            && (exists k :: 0 <= k < |rows| && TakenFrom(e, rows[k]))
            && e.lastEventAt.Some? && rows != [] && rows[|rows| - 1].eventAt >= e.lastEventAt.value
    ensures DetRun(cfg, Start(clock), acts + more) ==>
              var entities := Exec(cfg, Start(clock), acts + more).db.StoreOf(kind).entities;
              key in entities && entities[key].lastEventAt == Some(rows[|rows| - 1].eventAt)
  {
    var st := Exec(cfg, Start(clock), acts).db.StoreOf(kind);
    var st' := Exec(cfg, Start(clock), acts + more).db.StoreOf(kind);
    CacheAgreesInEveryRun(cfg, clock, acts, kind);
    RunsOnlyAddHistory(cfg, clock, acts, more, kind);
    RunsNeverRollBack(cfg, clock, acts, more, kind);
    ListingShowsEntity(st, st'.events, key, rows);
    if DetRun(cfg, Start(clock), acts + more) {
      CacheAgreesInEveryRun(cfg, clock, acts + more, kind);
      ListingShowsEntity(st', st'.events, key, rows);
    }
  }
}
