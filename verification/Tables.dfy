/** The five tables of app/core/models.py. */
module Tables {
  import opened Options
  import opened Events

  type RawId = nat

  datatype Status = Pending | Processing | Processed | Failed | Duplicate

  datatype RawRow = RawRow(
    vendorHint: string,
    hashExact: string,
    receivedAt: int,
    duplicateOf: Option<RawId>,
    status: Status,
    attempts: nat,
    lastError: Option<string>,
    lockedAt: Option<int>,
    processedAt: Option<int>)
  {
    /** The rows that the partial unique index covers. */
    predicate Primary() {
      duplicateOf.None?
    }

    predicate SameKey(vendor: string, hash: string) {
      vendorHint == vendor && hashExact == hash
    }

    /** The columns that no statement of the program updates. */
    predicate SameIdentity(that: RawRow) {
      vendorHint == that.vendorHint && hashExact == that.hashExact
      && receivedAt == that.receivedAt && duplicateOf == that.duplicateOf
    }
  }

  /** The unique key of both entity tables. */
  datatype EntityKey = EntityKey(vendor: string, externalRef: string)

  datatype Entity = Entity(
    currentState: Option<CanonicalState>,
    lastEventAt: Option<int>,
    attributes: Payload,
    updatedAt: int)

  datatype EventRow = EventRow(
    rawId: RawId,
    key: EntityKey,
    state: CanonicalState,
    eventAt: int,
    vendorMilestone: Option<string>,
    attributes: Payload)

  /** One entity table with its event table; the events are in commit order. */
  datatype Store = Store(entities: map<EntityKey, Entity>, events: seq<EventRow>)

  datatype Db = Db(raws: map<RawId, RawRow>, shipments: Store, invoices: Store)
  {
    function StoreOf(kind: Kind): Store {
      if kind.ShipmentKind? then shipments else invoices
    }

    function WithStore(kind: Kind, st: Store): Db {
      if kind.ShipmentKind? then this.(shipments := st) else this.(invoices := st)
    }
  }

  const EMPTY_STORE := Store(map[], [])
  const EMPTY_DB := Db(map[], EMPTY_STORE, EMPTY_STORE)

  /** A database with one raw row and nothing else. */
  function OneRow(row: RawRow): Db {
    Db(map[0 := row], EMPTY_STORE, EMPTY_STORE)
  }

  /** The unique index on raw_event_id of an event table. */
  predicate Recorded(events: seq<EventRow>, raw: RawId) {
    exists i :: 0 <= i < |events| && events[i].rawId == raw
  }
}
