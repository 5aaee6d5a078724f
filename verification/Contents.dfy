/** What persist_normalized stores, column by column, from the fields of the typed payload. */
module Contents {
  import opened Options
  import opened Events
  import opened Tables
  import opened Normalization

  /** The two datetimes name the same instant: the clocks that show them differ by their UTC offsets. */
  predicate SameInstant(t: Timestamp, u: Timestamp) {
    t.wall - u.wall == OffsetOf(t) - OffsetOf(u)
  }

  predicate EarlierInstant(t: Timestamp, u: Timestamp) {
    t.wall - u.wall < OffsetOf(t) - OffsetOf(u)
  }

  /** A datetime without an offset is read as UTC. */
  function OffsetOf(t: Timestamp): int {
    if t.Aware? then t.offset else 0
  }

  /** EnsureUtc keeps instants and their order, and leaves a wall-clock time in UTC as it is. */
  lemma UtcIsTheInstant(t: Timestamp, u: Timestamp)
    ensures EnsureUtc(t) == EnsureUtc(u) <==> SameInstant(t, u)
    ensures EnsureUtc(t) < EnsureUtc(u) <==> EarlierInstant(t, u)
    ensures EnsureUtc(Naive(t.wall)) == EnsureUtc(Aware(t.wall, 0)) == t.wall
  {
  }

  /** Moving the clock and its offset together changes nothing. */
  lemma UtcIgnoresTheZone(wall: int, offset: int, d: int)
    ensures EnsureUtc(Aware(wall + d, offset + d)) == EnsureUtc(Aware(wall, offset))
  {
  }

  /** Events that differ in how they write one instant, and in the vendor the classifier read, are stored alike. */
  lemma PersistReadsInstants(db: Db, raw: RawId, event: NormalizedEvent, other: NormalizedEvent, now: int, keep: bool)
    requires raw in db.raws && event.payload == other.payload && SameInstant(event.eventAt, other.eventAt)
    ensures Persist(db, raw, event, now, keep) == Persist(db, raw, other, now, keep)
  {
    UtcIsTheInstant(event.eventAt, other.eventAt);
    var vendor := db.raws[raw].vendorHint;
    var p, q := Persisted(raw, vendor, event, now), Persisted(raw, vendor, other, now);
    assert event.payload.EntityKind().Some? ==> p.Row() == q.Row();
  }

  /**
   * A classified event of the given columns is in the table: appended to the history unless its raw row has history
   * there, and taken over by the entity unless that is as new; the entity is touched either way, and no other is.
   */
  ghost predicate Stored(before: Store, after: Store, raw: RawId, key: EntityKey, state: CanonicalState, at: int,
                         milestone: string, attributes: Payload, now: int) {
    && after.events == before.events + (if exists i :: 0 <= i < |before.events| && before.events[i].rawId == raw then []
                                        else [EventRow(raw, key, state, at, Some(milestone), attributes)])
    && after.entities.Keys == before.entities.Keys + {key}
    && (forall k :: k in before.entities && k != key ==> after.entities[k] == before.entities[k])
    && after.entities[key].updatedAt == now
    && (if key in before.entities && before.entities[key].lastEventAt.Some?
           && at <= before.entities[key].lastEventAt.value
        then after.entities[key] == before.entities[key].(updatedAt := now)
        else after.entities[key].currentState == Some(state) && after.entities[key].lastEventAt == Some(at)
             && after.entities[key].attributes == attributes)
  }

  lemma RecordStores(st: Store, row: EventRow, now: int)
    requires row.vendorMilestone.Some?
    ensures Stored(st, Record(st, row, now), row.rawId, row.key, row.state, row.eventAt, row.vendorMilestone.value,
                   row.attributes, now)
  {
  }

  /** A shipment payload goes to the shipments, under its transport document and the raw row's vendor_hint. */
  lemma ShipmentIsStored(db: Db, raw: RawId, event: NormalizedEvent, now: int, keep: bool, state: ShipmentState,
                         ref: string, milestone: string, extras: string)
    requires raw in db.raws && event.payload == ShipmentPayload(state, ref, milestone, extras)
    ensures var after := Persist(db, raw, event, now, keep);
            && after.invoices == db.invoices
            && Stored(db.shipments, after.shipments, raw, EntityKey(db.raws[raw].vendorHint, ref), OfShipment(state),
                      EnsureUtc(event.eventAt), milestone, event.payload, now)
  {
    RecordStores(db.shipments, Persisted(raw, db.raws[raw].vendorHint, event, now).Row(), now);
  }

  /** An invoice payload goes to the invoices, under its document reference and the raw row's vendor_hint. */
  lemma InvoiceIsStored(db: Db, raw: RawId, event: NormalizedEvent, now: int, keep: bool, state: InvoiceState,
                        ref: string, milestone: string, extras: string)
    requires raw in db.raws && event.payload == InvoicePayload(state, ref, milestone, extras)
    ensures var after := Persist(db, raw, event, now, keep);
            && after.shipments == db.shipments
            && Stored(db.invoices, after.invoices, raw, EntityKey(db.raws[raw].vendorHint, ref), OfInvoice(state),
                      EnsureUtc(event.eventAt), milestone, event.payload, now)
  {
    RecordStores(db.invoices, Persisted(raw, db.raws[raw].vendorHint, event, now).Row(), now);
  }

  /** Every persist marks its raw row; only an unclassified event that is not kept leaves a note. */
  lemma RawRowIsMarked(db: Db, raw: RawId, event: NormalizedEvent, now: int, keep: bool)
    requires raw in db.raws
    ensures var after := Persist(db, raw, event, now, keep);
            && after.raws.Keys == db.raws.Keys
            && (forall r :: r in db.raws && r != raw ==> after.raws[r] == db.raws[r])
            && after.raws[raw] == db.raws[raw].(status := Processed, processedAt := Some(now),
                                                lastError := after.raws[raw].lastError)
            && (after.raws[raw].lastError.Some? <==> event.payload.UnclassifiedPayload? && !keep)
            && (after.raws[raw].lastError.Some? ==> after.raws[raw].lastError.value == event.payload.reason)
    ensures event.payload.UnclassifiedPayload? ==>
              var after := Persist(db, raw, event, now, keep);
              after.shipments == db.shipments && after.invoices == db.invoices
  {
  }
}
