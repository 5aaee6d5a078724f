/** A call of persist_normalized that meets no lock of another is never blocked, and is the whole persist. */
module WholeCalls {
  import opened Options
  import opened Tables
  import opened Normalization
  import opened Serializability
  import opened LateNote

  /** The open transaction holds nothing that a call for `spec`, whose raw row has the vendor_hint, has to lock. */
  predicate Disjoint(u: Tx, spec: Spec, vendor: string) {
    && (u.phase.Marked? ==> u.spec.raw != spec.raw)
    && (spec.event.payload.EntityKind().Some?
        && spec.event.payload.EntityKind() == u.spec.event.payload.EntityKind() ==>
          && (u.entity.Some? ==> u.loaded.vendorHint != vendor
                                 || u.spec.event.payload.ExternalRef() != spec.event.payload.ExternalRef())
          && (u.inserted ==> u.spec.raw != spec.raw))
  }

  ghost predicate Undisturbed(s: State, t: TxId, spec: Spec) {
    && t !in s.txs && spec.raw in s.db.raws
    && forall u :: u in s.txs ==> Disjoint(s.txs[u], spec, s.db.raws[spec.raw].vendorHint)
  }

  /** The statements of one call. */
  function CallStatements(t: TxId, spec: Spec): seq<Statement> {
    if spec.event.payload.UnclassifiedPayload? then [] + [MarkRaw(t)] + [Commit(t)]
    else [] + [UpsertEntity(t)] + [InsertEvent(t)] + [MoveState(t)] + [MarkRaw(t)] + [Commit(t)]
  }

  lemma StaysApart(tx: Tx, u: Tx, vendor: string)
    requires Disjoint(u, tx.spec, vendor) && tx.loaded.vendorHint == vendor
    ensures Apart(tx, u)
  {
  }

  /** The next statement of the call runs. */
  lemma StepRuns(db0: Db, sts: seq<Statement>, s: State, t: TxId, tx: Tx, st: Statement, keep: bool)
    requires Undisturbed(s, t, tx.spec) && tx.loaded == s.db.raws[tx.spec.raw]
    requires Exec(db0, sts, keep) == State(s.db, s.txs[t := tx])
    requires (st.UpsertEntity? || st.InsertEvent? || st.MoveState? || st.MarkRaw?) && st.t == t
    requires Stepped(s.db, tx, st).Some?
    ensures Exec(db0, sts + [st], keep) == State(s.db, s.txs[t := Stepped(s.db, tx, st).value])
    ensures Commits(db0, sts + [st], keep) == Commits(db0, sts, keep)
  {
    ExecSnoc(db0, sts, st, keep);
    var after := Stepped(s.db, tx, st).value;
    var all := s.txs[t := tx];
    forall u | u in all && u != t
      ensures Apart(after, all[u])
    {
      StaysApart(after, all[u], tx.loaded.vendorHint);
    }
    assert all[t := after] == s.txs[t := after];
  }

  lemma BeginRuns(db0: Db, sts: seq<Statement>, s: State, t: TxId, spec: Spec, keep: bool)
    requires Exec(db0, sts, keep) == s && Undisturbed(s, t, spec)
    ensures Exec(db0, sts + [Begin(t, spec)], keep)
            == State(s.db, s.txs[t := Tx(spec, s.db.raws[spec.raw], Begun, None, false)])
    ensures Commits(db0, sts + [Begin(t, spec)], keep) == Commits(db0, sts, keep)
  {
    ExecSnoc(db0, sts, Begin(t, spec), keep);
  }

  lemma CommitRuns(db0: Db, sts: seq<Statement>, s: State, t: TxId, tx: Tx, keep: bool)
    requires t !in s.txs && Exec(db0, sts, keep) == State(s.db, s.txs[t := tx])
    requires tx.phase.Marked? && tx.spec.raw in s.db.raws
    ensures Exec(db0, sts + [Commit(t)], keep) == State(CommittedDb(s.db, tx, keep), s.txs)
    ensures Commits(db0, sts + [Commit(t)], keep) == Commits(db0, sts, keep) + [tx.spec]
  {
    ExecSnoc(db0, sts, Commit(t), keep);
    assert s.txs[t := tx] - {t} == s.txs;
  }

  /** The statements between begin and mark, for an event with an entity kind. */
  lemma EntityRuns(db0: Db, sts: seq<Statement>, s: State, t: TxId, tx: Tx, keep: bool) returns (moved: Tx)
    requires tx.spec.event.payload.EntityKind().Some? && Undisturbed(s, t, tx.spec)
    requires tx == Tx(tx.spec, s.db.raws[tx.spec.raw], Begun, None, false)
    requires Exec(db0, sts, keep) == State(s.db, s.txs[t := tx])
    ensures var all := sts + [UpsertEntity(t)] + [InsertEvent(t)] + [MoveState(t)];
            && Exec(db0, all, keep) == State(s.db, s.txs[t := moved])
            && Commits(db0, all, keep) == Commits(db0, sts, keep)
    ensures moved.spec == tx.spec && moved.loaded == tx.loaded && moved.phase.StateMoved?
    ensures moved.inserted == !Recorded(StoreFor(s.db, tx).events, tx.spec.raw)
    ensures var row := tx.Call().Row();
            moved.entity == Some(Record(StoreFor(s.db, tx), row, tx.spec.now).entities[row.key])
  {
    StepRuns(db0, sts, s, t, tx, UpsertEntity(t), keep);
    var upserted := Stepped(s.db, tx, UpsertEntity(t)).value;
    StepRuns(db0, sts + [UpsertEntity(t)], s, t, upserted, InsertEvent(t), keep);
    var tried := Stepped(s.db, upserted, InsertEvent(t)).value;
    StepRuns(db0, sts + [UpsertEntity(t)] + [InsertEvent(t)], s, t, tried, MoveState(t), keep);
    moved := Stepped(s.db, tried, MoveState(t)).value;
  }

  /** What the call commits is the whole persist: nothing has changed since it loaded its row. */
  lemma CommitsPersist(db: Db, tx: Tx, keep: bool)
    requires tx.spec.raw in db.raws && tx.loaded == db.raws[tx.spec.raw]
    requires if tx.spec.event.payload.EntityKind().Some? then
               var row := tx.Call().Row();
               && tx.inserted == !Recorded(StoreFor(db, tx).events, tx.spec.raw)
               && tx.entity == Some(Record(StoreFor(db, tx), row, tx.spec.now).entities[row.key])
             else tx.entity.None?
    ensures CommittedDb(db, tx, keep) == Persist(db, tx.spec.raw, tx.spec.event, tx.spec.now, keep)
  {
    var kind := tx.spec.event.payload.EntityKind();
    if kind.Some? {
      var row := tx.Call().Row();
      assert CommittedStore(db.StoreOf(kind.value), kind.value, tx).entities
          == Record(db.StoreOf(kind.value), row, tx.spec.now).entities;
    }
  }

  /** The last two statements. */
  lemma EndRuns(db0: Db, sts: seq<Statement>, s: State, t: TxId, tx: Tx, keep: bool)
    requires Undisturbed(s, t, tx.spec) && tx.loaded == s.db.raws[tx.spec.raw]
    requires Exec(db0, sts, keep) == State(s.db, s.txs[t := tx])
    requires Stepped(s.db, tx, MarkRaw(t)) == Some(tx.(phase := Marked))
    ensures Exec(db0, sts + [MarkRaw(t)] + [Commit(t)], keep)
            == State(CommittedDb(s.db, tx.(phase := Marked), keep), s.txs)
    ensures Commits(db0, sts + [MarkRaw(t)] + [Commit(t)], keep) == Commits(db0, sts, keep) + [tx.spec]
  {
    StepRuns(db0, sts, s, t, tx, MarkRaw(t), keep);
    CommitRuns(db0, sts + [MarkRaw(t)], s, t, tx.(phase := Marked), keep);
  }

  lemma DropRuns(db0: Db, begun: seq<Statement>, s: State, t: TxId, tx: Tx, keep: bool)
    requires tx.spec.event.payload.UnclassifiedPayload? && Undisturbed(s, t, tx.spec)
    requires tx == Tx(tx.spec, s.db.raws[tx.spec.raw], Begun, None, false)
    requires Exec(db0, begun, keep) == State(s.db, s.txs[t := tx])
    ensures var spec, all := tx.spec, begun + [MarkRaw(t)] + [Commit(t)];
            && Exec(db0, all, keep) == State(Persist(s.db, spec.raw, spec.event, spec.now, keep), s.txs)
            && Commits(db0, all, keep) == Commits(db0, begun, keep) + [spec]
  {
    EndRuns(db0, begun, s, t, tx, keep);
    CommitsPersist(s.db, tx.(phase := Marked), keep);
  }

  lemma ClassifiedRuns(db0: Db, begun: seq<Statement>, s: State, t: TxId, tx: Tx, keep: bool)
    requires tx.spec.event.payload.EntityKind().Some? && Undisturbed(s, t, tx.spec)
    requires tx == Tx(tx.spec, s.db.raws[tx.spec.raw], Begun, None, false)
    requires Exec(db0, begun, keep) == State(s.db, s.txs[t := tx])
    ensures var spec := tx.spec;
            var all := begun + [UpsertEntity(t)] + [InsertEvent(t)] + [MoveState(t)] + [MarkRaw(t)] + [Commit(t)];
            && Exec(db0, all, keep) == State(Persist(s.db, spec.raw, spec.event, spec.now, keep), s.txs)
            && Commits(db0, all, keep) == Commits(db0, begun, keep) + [spec]
  {
    var moved := EntityRuns(db0, begun, s, t, tx, keep);
    EndRuns(db0, begun + [UpsertEntity(t)] + [InsertEvent(t)] + [MoveState(t)], s, t, moved, keep);
    CommitsPersist(s.db, moved.(phase := Marked), keep);
  }

  lemma Reassociate(begun: seq<Statement>, t: TxId, spec: Spec)
    ensures begun + CallStatements(t, spec) ==
            if spec.event.payload.UnclassifiedPayload? then begun + [MarkRaw(t)] + [Commit(t)]
            else begun + [UpsertEntity(t)] + [InsertEvent(t)] + [MoveState(t)] + [MarkRaw(t)] + [Commit(t)]
  {
  }

  /**
   * In any interleaving, a call for which no open transaction holds a lock runs through, and commits exactly what the
   * whole persist makes of the committed tables; the open transactions stay as they are.
   */
  lemma UndisturbedCall(db0: Db, sts: seq<Statement>, t: TxId, spec: Spec, keep: bool)
    requires Undisturbed(Exec(db0, sts, keep), t, spec)
    ensures var s, all := Exec(db0, sts, keep), sts + [Begin(t, spec)] + CallStatements(t, spec);
            && Exec(db0, all, keep) == State(Persist(s.db, spec.raw, spec.event, spec.now, keep), s.txs)
            && Commits(db0, all, keep) == Commits(db0, sts, keep) + [spec]
  {
    var s, begun := Exec(db0, sts, keep), sts + [Begin(t, spec)];
    var tx := Tx(spec, s.db.raws[spec.raw], Begun, None, false);
    BeginRuns(db0, sts, s, t, spec, keep);
    Reassociate(begun, t, spec);
    if spec.event.payload.UnclassifiedPayload? {
      DropRuns(db0, begun, s, t, tx, keep);
    } else {
      ClassifiedRuns(db0, begun, s, t, tx, keep);
    }
  }

  /** And any open transaction may end at any point without a trace. */
  lemma RollbackLeavesNothing(db0: Db, sts: seq<Statement>, t: TxId, keep: bool)
    requires t in Exec(db0, sts, keep).txs
    ensures var s := Exec(db0, sts, keep);
            && Exec(db0, sts + [Rollback(t)], keep) == State(s.db, s.txs - {t})
            && Commits(db0, sts + [Rollback(t)], keep) == Commits(db0, sts, keep)
  {
    ExecSnoc(db0, sts, Rollback(t), keep);
  }
}
