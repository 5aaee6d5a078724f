/**
 * persist_normalized at SQL-statement granularity, under READ COMMITTED: any number of transactions interleave, entity
 * rows, new event keys and raw rows stay locked from the statement that writes them to the end of the transaction, and
 * any transaction may roll back at any point.
 */
module Serializability {
  import opened Options
  import opened Events
  import opened Tables
  import opened Normalization

  type TxId = nat

  /** One call of persist_normalized. */
  datatype Spec = Spec(raw: RawId, event: NormalizedEvent, now: int)

  datatype Phase = Begun | EntityUpserted | EventTried | StateMoved | Marked

  /**
   * `loaded` is the raw row as session.get read it; `entity` is the transaction's version of its entity row, once it
   * has one; `inserted` tells whether its event insert took effect.
   */
  datatype Tx = Tx(spec: Spec, loaded: RawRow, phase: Phase, entity: Option<Entity>, inserted: bool)
  {
    function Call(): Persisted {
      Persisted(spec.raw, loaded.vendorHint, spec.event, spec.now)
    }

    predicate On(kind: Kind) {
      Call().For(kind)
    }

    predicate LocksEntity() {
      entity.Some? && spec.event.payload.EntityKind().Some?
    }

    predicate LocksEvent() {
      inserted && spec.event.payload.EntityKind().Some?
    }
  }

  datatype State = State(db: Db, txs: map<TxId, Tx>)

  datatype Statement =
    | Begin(t: TxId, spec: Spec)
    | UpsertEntity(t: TxId)
    | InsertEvent(t: TxId)
    | MoveState(t: TxId)
    | MarkRaw(t: TxId)
    | Commit(t: TxId)
    | Rollback(t: TxId)

  /** Two open transactions never hold the same lock. */
  predicate Apart(x: Tx, y: Tx) {
    && (x.LocksEntity() && y.LocksEntity() && x.spec.event.payload.EntityKind() == y.spec.event.payload.EntityKind() ==>
          x.Call().Row().key != y.Call().Row().key)
    && (x.LocksEvent() && y.LocksEvent() && x.spec.event.payload.EntityKind() == y.spec.event.payload.EntityKind() ==>
          x.spec.raw != y.spec.raw)
    && (x.phase.Marked? && y.phase.Marked? ==> x.spec.raw != y.spec.raw)
  }

  /** The store the transaction works on, if it works on one. */
  function StoreFor(db: Db, tx: Tx): Store
    requires tx.spec.event.payload.EntityKind().Some?
  {
    db.StoreOf(tx.spec.event.payload.EntityKind().value)
  }

  /** The transaction after its next statement, given what is committed; None when it has no such statement. */
  function Stepped(db: Db, tx: Tx, st: Statement): Option<Tx> {
    if tx.spec.event.payload.EntityKind().None? then
      if st.MarkRaw? && tx.phase.Begun? then Some(tx.(phase := Marked)) else None
    else
      var store, row := StoreFor(db, tx), tx.Call().Row();
      match (st, tx.phase)
      case (UpsertEntity(_), Begun) =>
        Some(tx.(phase := EntityUpserted, entity := Some(Upserted(store, row, tx.spec.now).entities[row.key])))
      case (InsertEvent(_), EntityUpserted) =>
        Some(tx.(phase := EventTried, inserted := !Recorded(store.events, tx.spec.raw)))
      case (MoveState(_), EventTried) =>
        if tx.entity.Some? then
          Some(tx.(phase := StateMoved, entity := Some(AdvancedEntity(tx.entity.value, row, tx.spec.now))))
        else None
      case (MarkRaw(_), StateMoved) => Some(tx.(phase := Marked))
      case _ => None
  }

  /** A statement runs only when the locks it takes are free. */
  predicate Enabled(s: State, st: Statement) {
    match st
    case Begin(t, spec) => t !in s.txs && spec.raw in s.db.raws
    case Commit(t) => t in s.txs && s.txs[t].phase.Marked? && s.txs[t].spec.raw in s.db.raws
    case Rollback(t) => t in s.txs
    case _ =>
      && st.t in s.txs
      && var after := Stepped(s.db, s.txs[st.t], st);
         after.Some? && forall u :: u in s.txs && u != st.t ==> Apart(after.value, s.txs[u])
  }

  /** The columns that a call sets to a value of its own. */
  datatype Column = LastError | ProcessedAt

  /** The row already has the value that the call sets in the column. */
  predicate Has(row: RawRow, col: Column, spec: Spec, keep: bool) {
    match col
    case LastError => row.lastError == Note(spec.event, keep)
    case ProcessedAt => row.processedAt == Some(spec.now)
  }

  predicate SameCell(x: RawRow, y: RawRow, col: Column) {
    match col
    case LastError => x.lastError == y.lastError
    case ProcessedAt => x.processedAt == y.processedAt
  }

  /** The UPDATE of the raw row writes only the columns whose new value differs from the loaded one. */
  function MarkedColumns(row: RawRow, tx: Tx, keep: bool): RawRow {
    row.(status := if tx.loaded.status == Processed then row.status else Processed,
         processedAt := if Has(tx.loaded, ProcessedAt, tx.spec, keep) then row.processedAt else Some(tx.spec.now),
         lastError := if Has(tx.loaded, LastError, tx.spec, keep) then row.lastError else Note(tx.spec.event, keep))
  }

  function CommittedStore(st: Store, kind: Kind, tx: Tx): Store {
    if tx.On(kind) && tx.entity.Some? then
      Store(st.entities[tx.Call().Row().key := tx.entity.value],
            if tx.inserted then st.events + [tx.Call().Row()] else st.events)
    else st
  }

  /** What a commit makes visible. */
  function CommittedDb(db: Db, tx: Tx, keep: bool): Db
    requires tx.spec.raw in db.raws
  {
    Db(db.raws[tx.spec.raw := MarkedColumns(db.raws[tx.spec.raw], tx, keep)],
       CommittedStore(db.shipments, ShipmentKind, tx),
       CommittedStore(db.invoices, InvoiceKind, tx))
  }

  function Next(s: State, st: Statement, keep: bool): State {
    if !Enabled(s, st) then s
    else match st
      case Begin(t, spec) => s.(txs := s.txs[t := Tx(spec, s.db.raws[spec.raw], Begun, None, false)])
      case Commit(t) => State(CommittedDb(s.db, s.txs[t], keep), s.txs - {t})
      case Rollback(t) => s.(txs := s.txs - {t})
      case _ => s.(txs := s.txs[st.t := Stepped(s.db, s.txs[st.t], st).value])
  }

  function Exec(db: Db, sts: seq<Statement>, keep: bool): State {
    if sts == [] then State(db, map[]) else Next(Exec(db, sts[..|sts| - 1], keep), sts[|sts| - 1], keep)
  }

  function CommitOf(s: State, st: Statement): seq<Spec> {
    if st.Commit? && Enabled(s, st) then [s.txs[st.t].spec] else []
  }

  /** The committed calls, in commit order. */
  function Commits(db: Db, sts: seq<Statement>, keep: bool): seq<Spec> {
    if sts == [] then []
    else Commits(db, sts[..|sts| - 1], keep) + CommitOf(Exec(db, sts[..|sts| - 1], keep), sts[|sts| - 1])
  }

  /** Whole calls, one after the other. */
  function Serial(db: Db, specs: seq<Spec>, keep: bool): Db {
    if specs == [] then db
    else
      var before, spec := Serial(db, specs[..|specs| - 1], keep), specs[|specs| - 1];
      if spec.raw in before.raws then Persist(before, spec.raw, spec.event, spec.now, keep) else before
  }

  /** The transaction's own versions are what the whole call would compute from what is committed now. */
  predicate UpToDate(db: Db, tx: Tx)
    requires tx.spec.event.payload.EntityKind().Some?
  {
    var store, row := StoreFor(db, tx), tx.Call().Row();
    var upserted := Upserted(store, row, tx.spec.now).entities[row.key];
    match tx.phase
    case Begun => tx.entity.None? && !tx.inserted
    case EntityUpserted => tx.entity == Some(upserted) && !tx.inserted
    case EventTried => tx.entity == Some(upserted) && tx.inserted == !Recorded(store.events, tx.spec.raw)
    case _ =>
      tx.entity == Some(AdvancedEntity(upserted, row, tx.spec.now))
      && tx.inserted == !Recorded(store.events, tx.spec.raw)
  }

  predicate TxOk(db: Db, tx: Tx) {
    && tx.spec.raw in db.raws
    && tx.loaded.vendorHint == db.raws[tx.spec.raw].vendorHint
    && (tx.loaded.status == Processed ==> db.raws[tx.spec.raw].status == Processed)
    && (if tx.spec.event.payload.EntityKind().Some? then UpToDate(db, tx)
        else tx.entity.None? && !tx.inserted && (tx.phase.Begun? || tx.phase.Marked?))
  }

  predicate Inv(s: State) {
    && (forall t :: t in s.txs ==> TxOk(s.db, s.txs[t]))
    && (forall t, u :: t in s.txs && u in s.txs && t != u ==> Apart(s.txs[t], s.txs[u]))
  }

  /** A commit leaves the other transactions up to date: it writes only rows they have not locked. */
  lemma CommitKeepsOthers(db: Db, tx: Tx, other: Tx, keep: bool)
    requires TxOk(db, tx) && TxOk(db, other) && Apart(tx, other) && tx.phase.Marked?
    ensures TxOk(CommittedDb(db, tx, keep), other)
  {
    if other.spec.event.payload.EntityKind().Some? && tx.On(other.spec.event.payload.EntityKind().value) {
      var store := StoreFor(db, other);
      var row := tx.Call().Row();
      if tx.inserted {
        assert Recorded(store.events + [row], other.spec.raw) <==>
               Recorded(store.events, other.spec.raw) || tx.spec.raw == other.spec.raw by {
          assert (store.events + [row])[|store.events|] == row;
          if Recorded(store.events, other.spec.raw) {
            var i :| 0 <= i < |store.events| && store.events[i].rawId == other.spec.raw;
            assert (store.events + [row])[i].rawId == other.spec.raw;
          }
        }
      }
    }
  }

  lemma StepKeepsTx(s: State, st: Statement, t: TxId, keep: bool)
    requires Inv(s) && Enabled(s, st) && !st.Commit? && t in Next(s, st, keep).txs
    ensures TxOk(s.db, Next(s, st, keep).txs[t])
  {
    if t in s.txs {
      assert TxOk(s.db, s.txs[t]);
    }
  }

  lemma StepKeepsApart(s: State, st: Statement, t: TxId, u: TxId, keep: bool)
    requires Inv(s) && Enabled(s, st) && t != u && t in Next(s, st, keep).txs && u in Next(s, st, keep).txs
    ensures Apart(Next(s, st, keep).txs[t], Next(s, st, keep).txs[u])
  {
    var txs := Next(s, st, keep).txs;
    if t in s.txs && u in s.txs {
      assert Apart(s.txs[t], s.txs[u]);
      if txs[u] != s.txs[u] {
        assert Apart(txs[u], s.txs[t]);
      }
    }
  }

  lemma NextKeepsInv(s: State, st: Statement, keep: bool)
    requires Inv(s)
    ensures Inv(Next(s, st, keep))
  {
    var s' := Next(s, st, keep);
    if Enabled(s, st) {
      forall u | u in s'.txs
        ensures TxOk(s'.db, s'.txs[u])
      {
        if st.Commit? {
          CommitKeepsOthers(s.db, s.txs[st.t], s.txs[u], keep);
        } else {
          StepKeepsTx(s, st, u, keep);
        }
      }
      forall t, u | t in s'.txs && u in s'.txs && t != u
        ensures Apart(s'.txs[t], s'.txs[u])
      {
        StepKeepsApart(s, st, t, u, keep);
      }
    }
  }

  lemma {:induction false} Reachable(db: Db, sts: seq<Statement>, keep: bool)
    ensures Inv(Exec(db, sts, keep))
  {
    if sts == [] {
    } else {
      Reachable(db, sts[..|sts| - 1], keep);
      NextKeepsInv(Exec(db, sts[..|sts| - 1], keep), sts[|sts| - 1], keep);
    }
  }

  /** Equal tables, except perhaps for the two columns that a call may leave out. */
  ghost predicate SameButSkippable(a: Db, b: Db) {
    && a.shipments == b.shipments && a.invoices == b.invoices && a.raws.Keys == b.raws.Keys
    && forall r :: r in a.raws ==>
         a.raws[r].(lastError := None, processedAt := None) == b.raws[r].(lastError := None, processedAt := None)
  }

  /** A commit has the effect of the whole call made at commit time, up to the columns it may leave out. */
  lemma CommitIsWholeCall(db: Db, tx: Tx, keep: bool)
    requires TxOk(db, tx) && tx.phase.Marked?
    ensures SameButSkippable(CommittedDb(db, tx, keep), Persist(db, tx.spec.raw, tx.spec.event, tx.spec.now, keep))
  {
  }

  /** If the call leaves the column out, because it had its value when the row was loaded, it still has it. */
  predicate Stands(db: Db, tx: Tx, col: Column, keep: bool) {
    tx.spec.raw in db.raws && (Has(tx.loaded, col, tx.spec, keep) ==> Has(db.raws[tx.spec.raw], col, tx.spec, keep))
  }

  /** The rows whose last commit left the column out although it had changed since the row was loaded. */
  function Skipped(db: Db, sts: seq<Statement>, col: Column, keep: bool): set<RawId> {
    if sts == [] then {}
    else
      var s, st := Exec(db, sts[..|sts| - 1], keep), sts[|sts| - 1];
      var before := Skipped(db, sts[..|sts| - 1], col, keep);
      if !st.Commit? || !Enabled(s, st) then before
      else if Stands(s.db, s.txs[st.t], col, keep) then before - {s.txs[st.t].spec.raw}
      else before + {s.txs[st.t].spec.raw}
  }

  lemma PersistRespectsSameButSkippable(a: Db, b: Db, spec: Spec, keep: bool)
    requires SameButSkippable(a, b) && spec.raw in a.raws
    ensures SameButSkippable(Persist(a, spec.raw, spec.event, spec.now, keep),
                             Persist(b, spec.raw, spec.event, spec.now, keep))
  {
    var x, y := a.raws[spec.raw], b.raws[spec.raw];
    assert x.(lastError := None, processedAt := None) == y.(lastError := None, processedAt := None);
    assert x.vendorHint == y.vendorHint;
  }

  lemma SameButSkippableTransitive(a: Db, b: Db, c: Db)
    requires SameButSkippable(a, b) && SameButSkippable(b, c)
    ensures SameButSkippable(a, c)
  {
  }

  lemma SerialSnoc(db: Db, specs: seq<Spec>, spec: Spec, keep: bool)
    requires spec.raw in Serial(db, specs, keep).raws
    ensures Serial(db, specs + [spec], keep) == Persist(Serial(db, specs, keep), spec.raw, spec.event, spec.now, keep)
  {
    assert (specs + [spec])[..|specs|] == specs;
  }

  lemma CommitExtendsSerial(now: Db, tx: Tx, db: Db, done: seq<Spec>, keep: bool)
    requires TxOk(now, tx) && tx.phase.Marked? && SameButSkippable(now, Serial(db, done, keep))
    ensures SameButSkippable(CommittedDb(now, tx, keep), Serial(db, done + [tx.spec], keep))
  {
    var before, spec := Serial(db, done, keep), tx.spec;
    CommitIsWholeCall(now, tx, keep);
    PersistRespectsSameButSkippable(now, before, spec, keep);
    SerialSnoc(db, done, spec, keep);
    SameButSkippableTransitive(CommittedDb(now, tx, keep), Persist(now, spec.raw, spec.event, spec.now, keep),
                               Persist(before, spec.raw, spec.event, spec.now, keep));
  }

  /**
   * Statement-level serializability: for any interleaving of any number of persists, any of them rolling back, the
   * committed tables are those of the committed calls run whole in commit order, up to the two skippable columns.
   */
  lemma {:induction false} Serializable(db: Db, sts: seq<Statement>, keep: bool)
    ensures SameButSkippable(Exec(db, sts, keep).db, Serial(db, Commits(db, sts, keep), keep))
  {
    if sts == [] {
    } else {
      var init, st := sts[..|sts| - 1], sts[|sts| - 1];
      Serializable(db, init, keep);
      var s, done := Exec(db, init, keep), Commits(db, init, keep);
      if st.Commit? && Enabled(s, st) {
        Reachable(db, init, keep);
        assert TxOk(s.db, s.txs[st.t]);
        CommitExtendsSerial(s.db, s.txs[st.t], db, done, keep);
      } else {
        assert done + [] == done;
        assert Commits(db, sts, keep) == done;
      }
    }
  }

  /** A commit makes the column of its row what the serial run makes it exactly if the column stands. */
  lemma CommitSetsCell(now: Db, tx: Tx, db: Db, done: seq<Spec>, col: Column, keep: bool, r: RawId)
    requires TxOk(now, tx) && r in now.raws && now.raws.Keys == Serial(db, done, keep).raws.Keys
    ensures r in Serial(db, done + [tx.spec], keep).raws
    ensures SameCell(CommittedDb(now, tx, keep).raws[r], Serial(db, done + [tx.spec], keep).raws[r], col) <==>
            if r == tx.spec.raw then Stands(now, tx, col, keep)
            else SameCell(now.raws[r], Serial(db, done, keep).raws[r], col)
  {
    SerialSnoc(db, done, tx.spec, keep);
  }

  lemma CommitUnfolds(db: Db, sts: seq<Statement>, t: TxId, col: Column, keep: bool)
    requires Enabled(Exec(db, sts, keep), Commit(t))
    ensures var s, all := Exec(db, sts, keep), sts + [Commit(t)];
            && Exec(db, all, keep).db == CommittedDb(s.db, s.txs[t], keep)
            && Commits(db, all, keep) == Commits(db, sts, keep) + [s.txs[t].spec]
            && forall r :: r in Skipped(db, all, col, keep) <==>
                 if r == s.txs[t].spec.raw then !Stands(s.db, s.txs[t], col, keep) else r in Skipped(db, sts, col, keep)
  {
    assert (sts + [Commit(t)])[..|sts|] == sts;
  }

  lemma OtherStepUnfolds(db: Db, sts: seq<Statement>, st: Statement, col: Column, keep: bool)
    requires !st.Commit? || !Enabled(Exec(db, sts, keep), st)
    ensures Exec(db, sts + [st], keep).db == Exec(db, sts, keep).db
    ensures Commits(db, sts + [st], keep) == Commits(db, sts, keep)
    ensures Skipped(db, sts + [st], col, keep) == Skipped(db, sts, col, keep)
  {
    assert (sts + [st])[..|sts|] == sts;
  }

  /** Exactly where a column may differ from the serial run: in the rows whose last commit skipped it. */
  lemma {:induction false} CellIsSerialIff(db: Db, sts: seq<Statement>, col: Column, keep: bool, r: RawId)
    requires r in Exec(db, sts, keep).db.raws
    ensures r in Serial(db, Commits(db, sts, keep), keep).raws
    ensures SameCell(Exec(db, sts, keep).db.raws[r], Serial(db, Commits(db, sts, keep), keep).raws[r], col)
            <==> r !in Skipped(db, sts, col, keep)
    decreases sts, 1
  {
    if sts == [] {
    } else {
      var init, st := sts[..|sts| - 1], sts[|sts| - 1];
      assert sts == init + [st];
      if st.Commit? && Enabled(Exec(db, init, keep), st) {
        CellAfterCommit(db, init, st.t, col, keep, r);
      } else {
        OtherStepUnfolds(db, init, st, col, keep);
        CellIsSerialIff(db, init, col, keep, r);
      }
    }
  }

  lemma {:induction false} CellAfterCommit(db: Db, sts: seq<Statement>, t: TxId, col: Column, keep: bool, r: RawId)
    requires Enabled(Exec(db, sts, keep), Commit(t)) && r in Exec(db, sts + [Commit(t)], keep).db.raws
    ensures r in Serial(db, Commits(db, sts + [Commit(t)], keep), keep).raws
    ensures SameCell(Exec(db, sts + [Commit(t)], keep).db.raws[r],
                     Serial(db, Commits(db, sts + [Commit(t)], keep), keep).raws[r], col)
            <==> r !in Skipped(db, sts + [Commit(t)], col, keep)
    decreases sts + [Commit(t)], 0
  {
    var s := Exec(db, sts, keep);
    CommitUnfolds(db, sts, t, col, keep);
    Reachable(db, sts, keep);
    Serializable(db, sts, keep);
    assert TxOk(s.db, s.txs[t]);
    CellIsSerialIff(db, sts, col, keep, r);
    CommitSetsCell(s.db, s.txs[t], db, Commits(db, sts, keep), col, keep, r);
  }

  lemma {:induction false} SkippedAreRows(db: Db, sts: seq<Statement>, col: Column, keep: bool)
    ensures Skipped(db, sts, col, keep) <= Exec(db, sts, keep).db.raws.Keys
  {
    if sts == [] {
    } else {
      SkippedAreRows(db, sts[..|sts| - 1], col, keep);
    }
  }

  lemma SameCellsSameDb(a: Db, b: Db)
    requires SameButSkippable(a, b)
    requires forall r :: r in a.raws ==>
               SameCell(a.raws[r], b.raws[r], LastError) && SameCell(a.raws[r], b.raws[r], ProcessedAt)
    ensures a == b
  {
    forall r | r in a.raws
      ensures a.raws[r] == b.raws[r]
    {
      assert a.raws[r].(lastError := None, processedAt := None) == b.raws[r].(lastError := None, processedAt := None);
    }
    assert a.raws == b.raws;
  }

  /** Exactly which interleavings leave the tables of the serial run: those that skip no column of any row. */
  lemma SerializableIff(db: Db, sts: seq<Statement>, keep: bool)
    ensures Exec(db, sts, keep).db == Serial(db, Commits(db, sts, keep), keep) <==>
            Skipped(db, sts, LastError, keep) == {} && Skipped(db, sts, ProcessedAt, keep) == {}
  {
    var a, b := Exec(db, sts, keep).db, Serial(db, Commits(db, sts, keep), keep);
    Serializable(db, sts, keep);
    SkippedAreRows(db, sts, LastError, keep);
    SkippedAreRows(db, sts, ProcessedAt, keep);
    forall r, col | r in a.raws
      ensures SameCell(a.raws[r], b.raws[r], col) <==> r !in Skipped(db, sts, col, keep)
    {
      CellIsSerialIff(db, sts, col, keep, r);
    }
    if Skipped(db, sts, LastError, keep) == {} && Skipped(db, sts, ProcessedAt, keep) == {} {
      SameCellsSameDb(a, b);
    } else if r :| r in Skipped(db, sts, LastError, keep) {
      assert !SameCell(a.raws[r], b.raws[r], LastError);
    } else if r :| r in Skipped(db, sts, ProcessedAt, keep) {
      assert !SameCell(a.raws[r], b.raws[r], ProcessedAt);
    }
  }

  /** Calls for one raw row leave the same note; so it is when unclassified events are kept, and under DET. */
  predicate OneNote(sts: seq<Statement>, keep: bool) {
    forall i, j :: 0 <= i < |sts| && 0 <= j < |sts| && sts[i].Begin? && sts[j].Begin?
                   && sts[i].spec.raw == sts[j].spec.raw
                   ==> Note(sts[i].spec.event, keep) == Note(sts[j].spec.event, keep)
  }

  /** The clock has moved on: no call starts at the very time its row was last processed. */
  predicate ClockMovesOn(db: Db, sts: seq<Statement>, keep: bool) {
    forall i :: 0 <= i < |sts| && sts[i].Begin? && sts[i].spec.raw in Exec(db, sts[..i], keep).db.raws ==>
      !Has(Exec(db, sts[..i], keep).db.raws[sts[i].spec.raw], ProcessedAt, sts[i].spec, keep)
  }

  predicate BegunBy(sts: seq<Statement>, spec: Spec) {
    exists i :: 0 <= i < |sts| && sts[i].Begin? && sts[i].spec == spec
  }

  lemma {:induction false} OpenWereBegun(db: Db, sts: seq<Statement>, keep: bool, t: TxId)
    requires t in Exec(db, sts, keep).txs
    ensures BegunBy(sts, Exec(db, sts, keep).txs[t].spec)
  {
    var init, st := sts[..|sts| - 1], sts[|sts| - 1];
    var s := Exec(db, init, keep);
    if t in s.txs {
      OpenWereBegun(db, init, keep, t);
      var i :| 0 <= i < |init| && init[i].Begin? && init[i].spec == s.txs[t].spec;
      assert sts[i] == init[i];
    }
    assert Exec(db, sts, keep) == Next(s, st, keep) && sts[|init|] == st;
  }

  lemma OpenCallsShareNote(db: Db, sts: seq<Statement>, keep: bool, t: TxId, u: TxId)
    requires OneNote(sts, keep) && t in Exec(db, sts, keep).txs && u in Exec(db, sts, keep).txs
    requires Exec(db, sts, keep).txs[t].spec.raw == Exec(db, sts, keep).txs[u].spec.raw
    ensures Note(Exec(db, sts, keep).txs[t].spec.event, keep) == Note(Exec(db, sts, keep).txs[u].spec.event, keep)
  {
    var txs := Exec(db, sts, keep).txs;
    OpenWereBegun(db, sts, keep, t);
    OpenWereBegun(db, sts, keep, u);
    var i :| 0 <= i < |sts| && sts[i].Begin? && sts[i].spec == txs[t].spec;
    var j :| 0 <= j < |sts| && sts[j].Begin? && sts[j].spec == txs[u].spec;
  }

  lemma CommitKeepsNotes(db: Db, tx: Tx, other: Tx, keep: bool)
    requires Stands(db, tx, LastError, keep) && Stands(db, other, LastError, keep)
    requires tx.spec.raw == other.spec.raw ==> Note(tx.spec.event, keep) == Note(other.spec.event, keep)
    ensures Stands(CommittedDb(db, tx, keep), other, LastError, keep)
  {
  }

  lemma StepKeepsNote(db: Db, sts: seq<Statement>, st: Statement, keep: bool, t: TxId)
    requires OneNote(sts, keep) && t in Next(Exec(db, sts, keep), st, keep).txs
    requires forall u :: u in Exec(db, sts, keep).txs ==>
               Stands(Exec(db, sts, keep).db, Exec(db, sts, keep).txs[u], LastError, keep)
    ensures Stands(Next(Exec(db, sts, keep), st, keep).db, Next(Exec(db, sts, keep), st, keep).txs[t], LastError, keep)
  {
    var s := Exec(db, sts, keep);
    if t in s.txs {
      assert Stands(s.db, s.txs[t], LastError, keep);
      if st.Commit? && Enabled(s, st) {
        if s.txs[st.t].spec.raw == s.txs[t].spec.raw {
          OpenCallsShareNote(db, sts, keep, st.t, t);
        }
        CommitKeepsNotes(s.db, s.txs[st.t], s.txs[t], keep);
      }
    }
  }

  lemma {:induction false} NotesStand(db: Db, sts: seq<Statement>, keep: bool)
    requires OneNote(sts, keep)
    ensures forall t :: t in Exec(db, sts, keep).txs ==>
              Stands(Exec(db, sts, keep).db, Exec(db, sts, keep).txs[t], LastError, keep)
  {
    if sts == [] {
    } else {
      var init, st := sts[..|sts| - 1], sts[|sts| - 1];
      NotesStand(db, init, keep);
      forall t | t in Exec(db, sts, keep).txs
        ensures Stands(Exec(db, sts, keep).db, Exec(db, sts, keep).txs[t], LastError, keep)
      {
        StepKeepsNote(db, init, st, keep, t);
      }
    }
  }

  lemma {:induction false} TimesAreNew(db: Db, sts: seq<Statement>, keep: bool)
    requires ClockMovesOn(db, sts, keep)
    ensures forall t :: t in Exec(db, sts, keep).txs ==>
              !Has(Exec(db, sts, keep).txs[t].loaded, ProcessedAt, Exec(db, sts, keep).txs[t].spec, keep)
  {
    if sts == [] {
    } else {
      var n := |sts| - 1;
      assert forall i :: 0 <= i <= n ==> sts[..n][..i] == sts[..i];
      TimesAreNew(db, sts[..n], keep);
      if sts[n].Begin? && sts[n].spec.raw in Exec(db, sts[..n], keep).db.raws {
        assert !Has(Exec(db, sts[..n], keep).db.raws[sts[n].spec.raw], ProcessedAt, sts[n].spec, keep);
      }
    }
  }

  lemma {:induction false} NothingSkipped(db: Db, sts: seq<Statement>, keep: bool)
    requires OneNote(sts, keep) && ClockMovesOn(db, sts, keep)
    ensures Skipped(db, sts, LastError, keep) == {} && Skipped(db, sts, ProcessedAt, keep) == {}
  {
    if sts != [] {
      var init, st := sts[..|sts| - 1], sts[|sts| - 1];
      assert forall i :: 0 <= i <= |init| ==> init[..i] == sts[..i];
      NothingSkipped(db, init, keep);
      NotesStand(db, init, keep);
      TimesAreNew(db, init, keep);
      Reachable(db, init, keep);
      var s := Exec(db, init, keep);
      if st.Commit? && Enabled(s, st) {
        assert TxOk(s.db, s.txs[st.t]) && Stands(s.db, s.txs[st.t], LastError, keep);
      }
    }
  }

  /** With one note per raw row and a clock that moves on the committed tables are exactly those of the serial run. */
  lemma FullySerializable(db: Db, sts: seq<Statement>, keep: bool)
    requires OneNote(sts, keep) && ClockMovesOn(db, sts, keep)
    ensures Exec(db, sts, keep).db == Serial(db, Commits(db, sts, keep), keep)
  {
    NothingSkipped(db, sts, keep);
    SerializableIff(db, sts, keep);
  }

  /** In particular whenever unclassified events are kept, which is the default. */
  lemma SerializableByDefault(db: Db, sts: seq<Statement>)
    requires ClockMovesOn(db, sts, true)
    ensures Exec(db, sts, true).db == Serial(db, Commits(db, sts, true), true)
  {
    FullySerializable(db, sts, true);
  }
}
