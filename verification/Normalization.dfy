/** What the statements of persist_normalized (app/services/normalization.py) do to the tables. */
module Normalization {
  import opened Options
  import opened Events
  import opened Tables

  /** One committed call of persist_normalized: the raw row, its vendor_hint, the event and the time of the call. */
  datatype Persisted = Persisted(raw: RawId, vendor: string, event: NormalizedEvent, now: int)
  {
    predicate For(kind: Kind) {
      event.payload.EntityKind() == Some(kind)
    }

    /** The history row; the entity's vendor is the row's vendor_hint, not the event's vendor. */
    function Row(): EventRow
      requires event.payload.EntityKind().Some?
    {
      EventRow(raw, EntityKey(vendor, event.payload.ExternalRef().value), event.payload.State(),
               EnsureUtc(event.eventAt), event.payload.VendorMilestone(), event.payload)
    }
  }

  /** Step 2, INSERT .. ON CONFLICT (vendor, external_ref) DO UPDATE SET updated_at. */
  function Upserted(st: Store, row: EventRow, now: int): Store {
    if row.key in st.entities then
      st.(entities := st.entities[row.key := st.entities[row.key].(updatedAt := now)])
    else
      st.(entities := st.entities[row.key := Entity(None, None, row.attributes, now)])
  }

  /** Step 3, INSERT .. ON CONFLICT (raw_event_id) DO NOTHING. */
  function EventInserted(st: Store, row: EventRow): Store {
    if Recorded(st.events, row.rawId) then st else st.(events := st.events + [row])
  }

  /** The guard of step 4. */
  predicate Newer(e: Entity, row: EventRow) {
    e.lastEventAt.None? || e.lastEventAt.value < row.eventAt
  }

  function AdvancedEntity(e: Entity, row: EventRow, now: int): Entity {
    if Newer(e, row) then Entity(Some(row.state), Some(row.eventAt), row.attributes, now) else e
  }

  /** Step 4, the conditional UPDATE of the entity row. */
  function StateAdvanced(st: Store, row: EventRow, now: int): Store
    requires row.key in st.entities
  {
    st.(entities := st.entities[row.key := AdvancedEntity(st.entities[row.key], row, now)])
  }

  /** Steps 2 to 4. */
  function Record(st: Store, row: EventRow, now: int): Store {
    StateAdvanced(EventInserted(Upserted(st, row, now), row), row, now)
  }

  /** last_error after a persist: a note only for an unclassified event the operator chose not to keep. */
  function Note(event: NormalizedEvent, keep: bool): Option<string> {
    if event.payload.UnclassifiedPayload? && !keep then Some(event.payload.reason) else None
  }

  /** Step 5 (step 1 for an unclassified event). */
  function MarkedProcessed(row: RawRow, event: NormalizedEvent, now: int, keep: bool): RawRow {
    row.(status := Processed, processedAt := Some(now), lastError := Note(event, keep))
  }

  /** The effect of one persist on the store of one kind. */
  function Put(st: Store, kind: Kind, p: Persisted): Store {
    if p.For(kind) then Record(st, p.Row(), p.now) else st
  }

  /** The whole of persist_normalized. */
  function Persist(db: Db, raw: RawId, event: NormalizedEvent, now: int, keep: bool): Db
    requires raw in db.raws
  {
    var p := Persisted(raw, db.raws[raw].vendorHint, event, now);
    Db(db.raws[raw := MarkedProcessed(db.raws[raw], event, now, keep)],
       Put(db.shipments, ShipmentKind, p),
       Put(db.invoices, InvoiceKind, p))
  }
}
