/** Two overlapping persists of one fresh raw row after which last_error is not that of the calls run whole. */
module LateNote {
  import opened Options
  import opened Events
  import opened Tables
  import opened Normalization
  import opened Serializability

  lemma ExecSnoc(db: Db, sts: seq<Statement>, x: Statement, keep: bool)
    ensures Exec(db, sts + [x], keep) == Next(Exec(db, sts, keep), x, keep)
    ensures Commits(db, sts + [x], keep) == Commits(db, sts, keep) + CommitOf(Exec(db, sts, keep), x)
  {
    assert (sts + [x])[..|sts|] == sts;
  }

  /** A begun call loads the row. */
  lemma AfterBegin(row: RawRow, sts: seq<Statement>, txs: map<TxId, Tx>, t: TxId, spec: Spec, keep: bool)
    requires Exec(OneRow(row), sts, keep) == State(OneRow(row), txs) && spec.raw == 0 && t !in txs
    ensures Exec(OneRow(row), sts + [Begin(t, spec)], keep)
            == State(OneRow(row), txs[t := Tx(spec, row, Begun, None, false)])
    ensures Commits(OneRow(row), sts + [Begin(t, spec)], keep) == Commits(OneRow(row), sts, keep)
  {
    ExecSnoc(OneRow(row), sts, Begin(t, spec), keep);
  }

  /** Two calls have loaded the row. */
  function BothBegun(a: Spec, b: Spec): seq<Statement> {
    [] + [Begin(0, a)] + [Begin(1, b)]
  }

  lemma AfterBothBegun(row: RawRow, a: Spec, b: Spec, keep: bool)
    requires a.raw == b.raw == 0
    ensures Exec(OneRow(row), BothBegun(a, b), keep)
            == State(OneRow(row), map[0 := Tx(a, row, Begun, None, false), 1 := Tx(b, row, Begun, None, false)])
    ensures Commits(OneRow(row), BothBegun(a, b), keep) == []
  {
    var x, y := Tx(a, row, Begun, None, false), Tx(b, row, Begun, None, false);
    AfterBegin(row, [], map[], 0, a, keep);
    assert map[][0 := x] == map[0 := x];
    AfterBegin(row, [] + [Begin(0, a)], map[0 := x], 1, b, keep);
    assert map[0 := x][1 := y] == map[0 := x, 1 := y];
  }

  /** A call with no lock of its own yet. */
  predicate Unlocked(tx: Tx) {
    tx.phase.Begun? && tx.entity.None? && !tx.inserted
  }

  /** The second call drops the row and commits. */
  lemma DropMarks(row: RawRow, x: Tx, y: Tx, keep: bool)
    requires Unlocked(x) && Unlocked(y) && y.spec.event.payload.UnclassifiedPayload?
    ensures Next(State(OneRow(row), map[0 := x, 1 := y]), MarkRaw(1), keep)
            == State(OneRow(row), map[0 := x, 1 := y.(phase := Marked)])
  {
    var txs := map[0 := x, 1 := y];
    assert Apart(y.(phase := Marked), txs[0]);
    assert txs[1 := y.(phase := Marked)] == map[0 := x, 1 := y.(phase := Marked)];
  }

  lemma DropCommits(row: RawRow, x: Tx, y: Tx, keep: bool)
    requires y.phase.Marked? && y.spec.event.payload.UnclassifiedPayload? && y.spec.raw == 0
    ensures Enabled(State(OneRow(row), map[0 := x, 1 := y]), Commit(1))
    ensures Next(State(OneRow(row), map[0 := x, 1 := y]), Commit(1), keep)
            == State(OneRow(MarkedColumns(row, y, keep)), map[0 := x])
  {
    assert map[0 := x, 1 := y] - {1} == map[0 := x];
    assert map[0 := row][0 := MarkedColumns(row, y, keep)] == map[0 := MarkedColumns(row, y, keep)];
  }

  function DropFirst(a: Spec, b: Spec): seq<Statement> {
    BothBegun(a, b) + [MarkRaw(1)] + [Commit(1)]
  }

  lemma AfterDropFirst(row: RawRow, a: Spec, b: Spec, keep: bool)
    requires a.raw == b.raw == 0 && b.event.payload.UnclassifiedPayload?
    ensures var x, y := Tx(a, row, Begun, None, false), Tx(b, row, Begun, None, false);
            Exec(OneRow(row), DropFirst(a, b), keep) == State(OneRow(MarkedColumns(row, y, keep)), map[0 := x])
    ensures Commits(OneRow(row), DropFirst(a, b), keep) == [b]
  {
    var x, y := Tx(a, row, Begun, None, false), Tx(b, row, Begun, None, false);
    AfterBothBegun(row, a, b, keep);
    ExecSnoc(OneRow(row), BothBegun(a, b), MarkRaw(1), keep);
    DropMarks(row, x, y, keep);
    ExecSnoc(OneRow(row), BothBegun(a, b) + [MarkRaw(1)], Commit(1), keep);
    DropCommits(row, x, y.(phase := Marked), keep);
    assert MarkedColumns(row, y.(phase := Marked), keep) == MarkedColumns(row, y, keep);
  }

  /** The locks of the only open call are free. */
  lemma EnabledAlone(db: Db, tx: Tx, st: Statement)
    requires (st.UpsertEntity? || st.InsertEvent? || st.MoveState? || st.MarkRaw?) && st.t == 0
    requires Stepped(db, tx, st).Some?
    ensures Enabled(State(db, map[0 := tx]), st)
  {
  }

  lemma NextAlone(db: Db, tx: Tx, st: Statement, keep: bool)
    requires (st.UpsertEntity? || st.InsertEvent? || st.MoveState? || st.MarkRaw?) && st.t == 0
    requires Stepped(db, tx, st).Some?
    ensures Next(State(db, map[0 := tx]), st, keep) == State(db, map[0 := Stepped(db, tx, st).value])
  {
    EnabledAlone(db, tx, st);
    assert map[0 := tx][0 := Stepped(db, tx, st).value] == map[0 := Stepped(db, tx, st).value];
  }

  /** The only open call runs its next statement. */
  lemma StepAlone(db0: Db, sts: seq<Statement>, db: Db, tx: Tx, st: Statement, keep: bool)
    requires Exec(db0, sts, keep) == State(db, map[0 := tx])
    requires (st.UpsertEntity? || st.InsertEvent? || st.MoveState? || st.MarkRaw?) && st.t == 0
    requires Stepped(db, tx, st).Some?
    ensures Exec(db0, sts + [st], keep) == State(db, map[0 := Stepped(db, tx, st).value])
    ensures Commits(db0, sts + [st], keep) == Commits(db0, sts, keep)
  {
    ExecSnoc(db0, sts, st, keep);
    NextAlone(db, tx, st, keep);
  }

  function LateRun(a: Spec, b: Spec): seq<Statement> {
    DropFirst(a, b) + [UpsertEntity(0)] + [InsertEvent(0)] + [MoveState(0)] + [MarkRaw(0)] + [Commit(0)]
  }

  /** The other call, alone by now, upserts, inserts and moves the state. */
  lemma MovesAlone(db0: Db, sts: seq<Statement>, row: RawRow, x: Tx, kind: Kind, keep: bool) returns (tx: Tx)
    requires Exec(db0, sts, keep) == State(OneRow(row), map[0 := x])
    requires Unlocked(x) && x.On(kind) && x.spec.raw == 0
    ensures tx.spec == x.spec && tx.loaded == x.loaded && tx.phase.StateMoved? && tx.entity.Some? && tx.inserted
    ensures var all := sts + [UpsertEntity(0)] + [InsertEvent(0)] + [MoveState(0)];
            && Exec(db0, all, keep) == State(OneRow(row), map[0 := tx])
            && Commits(db0, all, keep) == Commits(db0, sts, keep)
  {
    var db := OneRow(row);
    StepAlone(db0, sts, db, x, UpsertEntity(0), keep);
    var upserted := Stepped(db, x, UpsertEntity(0)).value;
    StepAlone(db0, sts + [UpsertEntity(0)], db, upserted, InsertEvent(0), keep);
    var tried := Stepped(db, upserted, InsertEvent(0)).value;
    assert !Recorded(EMPTY_STORE.events, 0);
    StepAlone(db0, sts + [UpsertEntity(0)] + [InsertEvent(0)], db, tried, MoveState(0), keep);
    tx := Stepped(db, tried, MoveState(0)).value;
  }

  /** Then it marks the row and commits. */
  lemma CommitsAlone(db0: Db, sts: seq<Statement>, row: RawRow, tx: Tx, kind: Kind, keep: bool)
    requires Exec(db0, sts, keep) == State(OneRow(row), map[0 := tx])
    requires tx.phase.StateMoved? && tx.On(kind) && tx.spec.raw == 0
    ensures Exec(db0, sts + [MarkRaw(0)] + [Commit(0)], keep).db == CommittedDb(OneRow(row), tx.(phase := Marked), keep)
    ensures Commits(db0, sts + [MarkRaw(0)] + [Commit(0)], keep) == Commits(db0, sts, keep) + [tx.spec]
  {
    StepAlone(db0, sts, OneRow(row), tx, MarkRaw(0), keep);
    ExecSnoc(db0, sts + [MarkRaw(0)], Commit(0), keep);
  }

  lemma SerialTail(row: RawRow, a: Spec, b: Spec, keep: bool)
    requires a.raw == b.raw == 0
    ensures 0 in Serial(OneRow(row), [b, a], keep).raws
    ensures Serial(OneRow(row), [b, a], keep).raws[0].lastError == Note(a.event, keep)
    ensures Serial(OneRow(row), [b, a], keep).raws[0].processedAt == Some(a.now)
  {
    assert Serial(OneRow(row), [], keep) == OneRow(row);
    SerialSnoc(OneRow(row), [], b, keep);
    assert [] + [b] == [b];
    SerialSnoc(OneRow(row), [b], a, keep);
    assert [b] + [a] == [b, a];
  }

  lemma AfterLateRun(row: RawRow, a: Spec, b: Spec, kind: Kind, keep: bool) returns (tx: Tx)
    requires a.raw == b.raw == 0
    requires a.event.payload.EntityKind() == Some(kind) && b.event.payload.UnclassifiedPayload?
    ensures tx.spec == a && tx.loaded == row && tx.entity.Some? && tx.inserted
    ensures Exec(OneRow(row), LateRun(a, b), keep).db
            == CommittedDb(OneRow(MarkedColumns(row, Tx(b, row, Begun, None, false), keep)), tx, keep)
    ensures Commits(OneRow(row), LateRun(a, b), keep) == [b, a]
  {
    var x, y := Tx(a, row, Begun, None, false), Tx(b, row, Begun, None, false);
    var after, sts := MarkedColumns(row, y, keep), DropFirst(a, b);
    AfterDropFirst(row, a, b, keep);
    var moved := MovesAlone(OneRow(row), sts, after, x, kind, keep);
    var sts' := sts + [UpsertEntity(0)] + [InsertEvent(0)] + [MoveState(0)];
    CommitsAlone(OneRow(row), sts', after, moved, kind, keep);
    assert LateRun(a, b) == sts' + [MarkRaw(0)] + [Commit(0)];
    tx := moved.(phase := Marked);
  }

  /** A classified call that loaded no error commits onto a dropped row without writing last_error. */
  lemma CommitKeepsDropNote(row: RawRow, tx: Tx, kind: Kind, b: Spec)
    requires tx.On(kind) && tx.spec.raw == 0 && tx.entity.Some? && tx.inserted && tx.loaded.lastError.None?
    requires row.status == Processed && b.event.payload.UnclassifiedPayload? && row.lastError == Note(b.event, false)
    ensures var db := CommittedDb(OneRow(row), tx, false);
            && db.raws[0].status == Processed && Recorded(db.StoreOf(kind).events, 0)
            && db.raws[0].lastError == Some(b.event.payload.reason)
  {
    var db := CommittedDb(OneRow(row), tx, false);
    assert db.StoreOf(kind).events == [] + [tx.Call().Row()];
    assert db.StoreOf(kind).events[0].rawId == 0;
  }

  /**
   * When unclassified events are dropped: a row without an error is loaded by a call that classified it and by one that
   * drops it; the drop commits first. The row ends processed and with history, and still carries the drop's note,
   * which no serial run in commit order leaves.
   */
  lemma LastErrorNotSerializable(row: RawRow, a: Spec, b: Spec, kind: Kind)
    requires row.lastError.None? && a.raw == b.raw == 0
    requires a.event.payload.EntityKind() == Some(kind) && b.event.payload.UnclassifiedPayload?
    ensures var db := Exec(OneRow(row), LateRun(a, b), false).db;
            && 0 in db.raws && db.raws[0].status == Processed && Recorded(db.StoreOf(kind).events, 0)
            && db.raws[0].lastError == Some(b.event.payload.reason)
            && Commits(OneRow(row), LateRun(a, b), false) == [b, a]
            && db != Serial(OneRow(row), [b, a], false)
  {
    var y := Tx(b, row, Begun, None, false);
    var tx := AfterLateRun(row, a, b, kind, false);
    CommitKeepsDropNote(MarkedColumns(row, y, false), tx, kind, b);
    SerialTail(row, a, b, false);
  }

  /**
   * The same for processed_at, for either setting: a row last processed at the very time of call a is loaded by both;
   * b commits at another time; a then leaves the column out, and the row keeps the time of b.
   */
  lemma ProcessedAtNotSerializable(row: RawRow, a: Spec, b: Spec, kind: Kind, keep: bool)
    requires row.processedAt == Some(a.now) && b.now != a.now && a.raw == b.raw == 0
    requires a.event.payload.EntityKind() == Some(kind) && b.event.payload.UnclassifiedPayload?
    ensures var db := Exec(OneRow(row), LateRun(a, b), keep).db;
            && 0 in db.raws && db.raws[0].processedAt == Some(b.now)
            && Commits(OneRow(row), LateRun(a, b), keep) == [b, a]
            && 0 in Serial(OneRow(row), [b, a], keep).raws
            && Serial(OneRow(row), [b, a], keep).raws[0].processedAt == Some(a.now)
  {
    var tx := AfterLateRun(row, a, b, kind, keep);
    SerialTail(row, a, b, keep);
  }
}
