/** The persists that a run committed, and what the tables owe to them. */
module Runs {
  import opened Events
  import opened Tables
  import opened Normalization
  import opened History
  import opened Replay
  import opened Pipeline
  import opened Safety
  import opened Prefixes

  /** The persist that an action commits in state s, if it commits one. */
  ghost function Committed(cfg: Config, s: Sys, act: Action): seq<Persisted> {
    if act.PersistEvent? && Enabled(cfg, s, act) then
      [Persisted(s.agents[act.a].raw, s.db.raws[s.agents[act.a].raw].vendorHint, act.event, s.clock)]
    else []
  }

  /** The committed persists of a run, in commit order. */
  ghost function Trace(cfg: Config, s: Sys, acts: seq<Action>): seq<Persisted> {
    if acts == [] then []
    else Trace(cfg, s, acts[..|acts| - 1]) + Committed(cfg, Exec(cfg, s, acts[..|acts| - 1]), acts[|acts| - 1])
  }

  lemma {:induction false} TraceConcat(cfg: Config, s: Sys, acts: seq<Action>, more: seq<Action>)
    ensures Trace(cfg, s, acts + more) == Trace(cfg, s, acts) + Trace(cfg, Exec(cfg, s, acts), more)
  {
    if more == [] {
      assert acts + more == acts;
    } else {
      assert (acts + more)[..|acts + more| - 1] == acts + more[..|more| - 1];
      TraceConcat(cfg, s, acts, more[..|more| - 1]);
      ExecConcat(cfg, s, acts, more[..|more| - 1]);
    }
  }

  lemma OneStepReplays(cfg: Config, s: Sys, act: Action, kind: Kind)
    ensures Next(cfg, s, act).db.StoreOf(kind) == Replayed(s.db.StoreOf(kind), kind, Committed(cfg, s, act))
  {
    var ps := Committed(cfg, s, act);
    if ps != [] {
      assert ps[..0] == [];
    }
  }

  /** Claims, failures, reaps, retries, crashes and inserts leave no mark on the entity and event tables. */
  lemma {:induction false} TablesAreReplay(cfg: Config, s: Sys, acts: seq<Action>, kind: Kind)
    ensures Exec(cfg, s, acts).db.StoreOf(kind) == Replayed(s.db.StoreOf(kind), kind, Trace(cfg, s, acts))
  {
    if acts == [] {
    } else {
      var init, act := acts[..|acts| - 1], acts[|acts| - 1];
      TablesAreReplay(cfg, s, init, kind);
      OneStepReplays(cfg, Exec(cfg, s, init), act, kind);
      ReplayedConcat(s.db.StoreOf(kind), kind, Trace(cfg, s, init), Committed(cfg, Exec(cfg, s, init), act));
    }
  }

  /** The raw row of a persist is a primary, and the vendor is the row's own. */
  ghost predicate FromPrimary(raws: map<RawId, RawRow>, p: Persisted) {
    p.raw in raws && raws[p.raw].Primary() && raws[p.raw].vendorHint == p.vendor
  }

  lemma NextKeepsFromPrimary(cfg: Config, s: Sys, act: Action, p: Persisted)
    requires Inv(s) && FromPrimary(s.db.raws, p)
    ensures FromPrimary(Next(cfg, s, act).db.raws, p)
  {
    if act.CommitInsert? {
      if Enabled(cfg, s, act) {
        assert AgentOk(s.db.raws, s.agents[act.a]);
      }
    } else {
      OnlyCommitInsertAddsRows(cfg, s, act);
    }
  }

  lemma {:induction false} TraceFromPrimaries(cfg: Config, clock: int, acts: seq<Action>)
    ensures forall i :: 0 <= i < |Trace(cfg, Start(clock), acts)| ==>
              FromPrimary(Exec(cfg, Start(clock), acts).db.raws, Trace(cfg, Start(clock), acts)[i])
  {
    if acts == [] {
    } else {
      var init, act := acts[..|acts| - 1], acts[|acts| - 1];
      var s, ps := Exec(cfg, Start(clock), init), Trace(cfg, Start(clock), init);
      TraceFromPrimaries(cfg, clock, init);
      Reachable(cfg, clock, init);
      forall i | 0 <= i < |Trace(cfg, Start(clock), acts)|
        ensures FromPrimary(Next(cfg, s, act).db.raws, Trace(cfg, Start(clock), acts)[i])
      {
        if i < |ps| {
          NextKeepsFromPrimary(cfg, s, act, ps[i]);
        } else {
          assert AgentOk(s.db.raws, s.agents[act.a]);
          NextKeepsFromPrimary(cfg, s, act, Committed(cfg, s, act)[0]);
        }
      }
    }
  }

  /** DET for a run: all successful classifications of one raw row that were persisted returned the same event. */
  ghost predicate DetRun(cfg: Config, s: Sys, acts: seq<Action>) {
    var ps := Trace(cfg, s, acts);
    forall i, j :: 0 <= i < |ps| && 0 <= j < |ps| && ps[i].raw == ps[j].raw ==> ps[i].event == ps[j].event
  }

  lemma DetRunIsDeterministic(cfg: Config, clock: int, acts: seq<Action>)
    requires DetRun(cfg, Start(clock), acts)
    ensures Deterministic(Trace(cfg, Start(clock), acts))
  {
    TraceFromPrimaries(cfg, clock, acts);
  }

  /**
   * Cache agrees with history in every reachable state, under DET: whatever workers, crashes, reaps, stale holders and
   * manual retries did, every entity row is the first committed among its latest history rows.
   */
  lemma CacheAgreesInEveryRun(cfg: Config, clock: int, acts: seq<Action>, kind: Kind)
    requires DetRun(cfg, Start(clock), acts)
    ensures CacheAgrees(Exec(cfg, Start(clock), acts).db.StoreOf(kind))
  {
    DetRunIsDeterministic(cfg, clock, acts);
    CacheAgreesUnderDet(kind, Trace(cfg, Start(clock), acts));
    TablesAreReplay(cfg, Start(clock), acts, kind);
  }

  /** The step persists a raw row that has its history row, with an event whose entity is older or missing. */
  ghost predicate MovesUnrecorded(cfg: Config, s: Sys, act: Action, kind: Kind) {
    Committed(cfg, s, act) != []
    && var p, st := Committed(cfg, s, act)[0], s.db.StoreOf(kind);
       && p.For(kind) && Recorded(st.events, p.raw)
       && (p.Row().key !in st.entities || Newer(st.entities[p.Row().key], p.Row()))
  }

  lemma StepAgreesIff(cfg: Config, s: Sys, act: Action, kind: Kind)
    requires CacheAgrees(s.db.StoreOf(kind))
    ensures CacheAgrees(Next(cfg, s, act).db.StoreOf(kind)) <==> !MovesUnrecorded(cfg, s, act, kind)
  {
    OneStepReplays(cfg, s, act, kind);
    var ps := Committed(cfg, s, act);
    if ps == [] {
    } else {
      assert ps[..0] == [];
      if ps[0].For(kind) {
        AgreementKeptIff(s.db.StoreOf(kind), ps[0].Row(), ps[0].now);
      }
    }
  }

  /** In the state after i steps of the run cache and history agree. */
  ghost predicate AgreesAt(cfg: Config, clock: int, acts: seq<Action>, kind: Kind, i: nat)
    requires i <= |acts|
  {
    CacheAgrees(Exec(cfg, Start(clock), acts[..i]).db.StoreOf(kind))
  }

  /** Step i of the run moves an entity without recording. */
  ghost predicate MovesAt(cfg: Config, clock: int, acts: seq<Action>, kind: Kind, i: nat)
    requires i < |acts|
  {
    MovesUnrecorded(cfg, Exec(cfg, Start(clock), acts[..i]), acts[i], kind)
  }

  lemma AgreesNextIff(cfg: Config, clock: int, acts: seq<Action>, kind: Kind, i: nat)
    requires i < |acts| && AgreesAt(cfg, clock, acts, kind, i)
    ensures AgreesAt(cfg, clock, acts, kind, i + 1) <==> !MovesAt(cfg, clock, acts, kind, i)
  {
    ExecNext(cfg, Start(clock), acts, i);
    StepAgreesIff(cfg, Exec(cfg, Start(clock), acts[..i]), acts[i], kind);
  }

  /**
   * For any classifier: cache and history agree in every state of a run if and only if no step of it moves an entity
   * without recording.
   */
  lemma AgreementRunIff(cfg: Config, clock: int, acts: seq<Action>, kind: Kind)
    ensures (forall i :: 0 <= i <= |acts| ==> AgreesAt(cfg, clock, acts, kind, i))
            <==> (forall i :: 0 <= i < |acts| ==> !MovesAt(cfg, clock, acts, kind, i))
  {
    var good := (i: nat) => i <= |acts| ==> AgreesAt(cfg, clock, acts, kind, i);
    var bad := (i: nat) => i < |acts| ==> MovesAt(cfg, clock, acts, kind, i);
    forall i | 0 <= i < |acts| && good(i)
      ensures good(i + 1) <==> !bad(i)
    {
      AgreesNextIff(cfg, clock, acts, kind, i);
    }
    assert forall i :: 0 <= i <= |acts| ==> (good(i) <==> AgreesAt(cfg, clock, acts, kind, i));
    assert forall i :: 0 <= i < |acts| ==> (bad(i) <==> MovesAt(cfg, clock, acts, kind, i));
    GoodIffNoStepBad(|acts|, good, bad);
  }

  /** Under DET a run with repeated processing leaves the tables that its first persists alone leave. */
  lemma RunsAreExactlyOnce(cfg: Config, clock: int, acts: seq<Action>, kind: Kind)
    requires DetRun(cfg, Start(clock), acts)
    ensures SameStore(Exec(cfg, Start(clock), acts).db.StoreOf(kind),
                      Replayed(EMPTY_STORE, kind, Firsts(Trace(cfg, Start(clock), acts))))
  {
    DetRunIsDeterministic(cfg, clock, acts);
    TablesAreReplay(cfg, Start(clock), acts, kind);
    AtLeastOnceIsExactlyOnce(kind, Trace(cfg, Start(clock), acts));
  }

  /** Never roll back, along every run and for any classifier. */
  lemma RunsNeverRollBack(cfg: Config, clock: int, acts: seq<Action>, more: seq<Action>, kind: Kind)
    ensures Anchored(Exec(cfg, Start(clock), acts).db.StoreOf(kind))
    ensures Anchored(Exec(cfg, Start(clock), acts + more).db.StoreOf(kind))
    ensures NeverRolledBack(Exec(cfg, Start(clock), acts).db.StoreOf(kind),
                            Exec(cfg, Start(clock), acts + more).db.StoreOf(kind))
  {
    var mid := Exec(cfg, Start(clock), acts);
    TablesAreReplay(cfg, Start(clock), acts, kind);
    NeverRollsBack(EMPTY_STORE, kind, Trace(cfg, Start(clock), acts));
    ExecConcat(cfg, Start(clock), acts, more);
    TablesAreReplay(cfg, mid, more, kind);
    NeverRollsBack(mid.db.StoreOf(kind), kind, Trace(cfg, mid, more));
  }

  /** Along every run history rows stay as they were inserted, at most one per raw row and table. */
  lemma RunsOnlyAddHistory(cfg: Config, clock: int, acts: seq<Action>, more: seq<Action>, kind: Kind)
    ensures UniqueRaws(Exec(cfg, Start(clock), acts).db.StoreOf(kind).events)
    ensures Exec(cfg, Start(clock), acts).db.StoreOf(kind).events
            <= Exec(cfg, Start(clock), acts + more).db.StoreOf(kind).events
  {
    var mid := Exec(cfg, Start(clock), acts);
    TablesAreReplay(cfg, Start(clock), acts, kind);
    HistoryOnlyGrows(EMPTY_STORE, kind, Trace(cfg, Start(clock), acts));
    ExecConcat(cfg, Start(clock), acts, more);
    TablesAreReplay(cfg, mid, more, kind);
    HistoryOnlyGrows(mid.db.StoreOf(kind), kind, Trace(cfg, mid, more));
  }

  lemma RecordedFrom(kind: Kind, ps: seq<Persisted>, raw: RawId) returns (i: nat)
    requires Recorded(Replayed(EMPTY_STORE, kind, ps).events, raw)
    ensures i < |ps| && ps[i].For(kind) && ps[i].raw == raw
  {
    var st := Replayed(EMPTY_STORE, kind, ps);
    var k :| 0 <= k < |st.events| && st.events[k].rawId == raw;
    HistoryWasPersisted(kind, ps, k);
    i :| 0 <= i < |ps| && ps[i].For(kind) && ps[i].Row() == st.events[k];
  }

  /** Under DET no raw row has history in both event tables. */
  lemma OneTablePerRaw(cfg: Config, clock: int, acts: seq<Action>, raw: RawId)
    requires DetRun(cfg, Start(clock), acts)
    ensures !(Recorded(Exec(cfg, Start(clock), acts).db.shipments.events, raw)
              && Recorded(Exec(cfg, Start(clock), acts).db.invoices.events, raw))
  {
    var db, ps := Exec(cfg, Start(clock), acts).db, Trace(cfg, Start(clock), acts);
    TablesAreReplay(cfg, Start(clock), acts, ShipmentKind);
    TablesAreReplay(cfg, Start(clock), acts, InvoiceKind);
    if Recorded(db.shipments.events, raw) {
      var i := RecordedFrom(ShipmentKind, ps, raw);
      if Recorded(db.invoices.events, raw) {
        var j := RecordedFrom(InvoiceKind, ps, raw);
        assert false;
      }
    }
  }

  /** The row was classified as unclassified, or it has history in the table of the kind it was classified as. */
  ghost predicate RecordedOrUnclassified(db: Db, ps: seq<Persisted>, raw: RawId) {
    exists i :: 0 <= i < |ps| && ps[i].raw == raw
      && (ps[i].event.payload.UnclassifiedPayload?
          || Recorded(db.StoreOf(ps[i].event.payload.EntityKind().value).events, raw))
  }

  lemma {:induction false} ProcessedWasPersisted(cfg: Config, clock: int, acts: seq<Action>, raw: RawId)
    requires raw in Exec(cfg, Start(clock), acts).db.raws
    requires Exec(cfg, Start(clock), acts).db.raws[raw].status == Processed
    ensures Mentions(Trace(cfg, Start(clock), acts), raw)
  {
    var init, act := acts[..|acts| - 1], acts[|acts| - 1];
    var s, ps := Exec(cfg, Start(clock), init), Trace(cfg, Start(clock), init);
    Reachable(cfg, clock, init);
    if act.CommitInsert? && Enabled(cfg, s, act) {
      assert AgentOk(s.db.raws, s.agents[act.a]);
    }
    if raw in s.db.raws && s.db.raws[raw].status == Processed {
      ProcessedWasPersisted(cfg, clock, init, raw);
      var i :| 0 <= i < |ps| && ps[i].raw == raw;
      assert Trace(cfg, Start(clock), acts)[i].raw == raw;
    } else {
      assert Trace(cfg, Start(clock), acts)[|ps|].raw == raw;
    }
  }

  /** Processed means recorded: a processed row has a history row, or was classified as unclassified. */
  lemma ProcessedMeansRecorded(cfg: Config, clock: int, acts: seq<Action>, raw: RawId)
    requires raw in Exec(cfg, Start(clock), acts).db.raws
    requires Exec(cfg, Start(clock), acts).db.raws[raw].status == Processed
    ensures RecordedOrUnclassified(Exec(cfg, Start(clock), acts).db, Trace(cfg, Start(clock), acts), raw)
  {
    var ps := Trace(cfg, Start(clock), acts);
    ProcessedWasPersisted(cfg, clock, acts, raw);
    var i :| 0 <= i < |ps| && ps[i].raw == raw;
    if !ps[i].event.payload.UnclassifiedPayload? {
      var kind := ps[i].event.payload.EntityKind().value;
      PersistedIsInHistory(EMPTY_STORE, kind, ps, i);
      TablesAreReplay(cfg, Start(clock), acts, kind);
    }
  }

  /** Every history row references a primary raw row of its entity's vendor. */
  lemma HistoryReferencesPrimaries(cfg: Config, clock: int, acts: seq<Action>, kind: Kind, k: nat)
    requires k < |Exec(cfg, Start(clock), acts).db.StoreOf(kind).events|
    ensures var db := Exec(cfg, Start(clock), acts).db;
            var row := db.StoreOf(kind).events[k];
            row.rawId in db.raws && db.raws[row.rawId].Primary() && db.raws[row.rawId].vendorHint == row.key.vendor
  {
    var db, ps := Exec(cfg, Start(clock), acts).db, Trace(cfg, Start(clock), acts);
    TablesAreReplay(cfg, Start(clock), acts, kind);
    HistoryWasPersisted(kind, ps, k);
    var i :| 0 <= i < |ps| && ps[i].For(kind) && ps[i].Row() == db.StoreOf(kind).events[k];
    TraceFromPrimaries(cfg, clock, acts);
    assert FromPrimary(db.raws, ps[i]);
  }

  /** No worker, retry or open claim ever holds a duplicate row, and only duplicates have the duplicate status. */
  lemma DuplicatesNeverHeld(cfg: Config, clock: int, acts: seq<Action>, a: AgentId)
    requires a in Exec(cfg, Start(clock), acts).agents
    requires Exec(cfg, Start(clock), acts).agents[a].Holder() || Exec(cfg, Start(clock), acts).agents[a].Claiming?
    ensures var s := Exec(cfg, Start(clock), acts);
            && s.agents[a].raw in s.db.raws
            && s.db.raws[s.agents[a].raw].Primary() && s.db.raws[s.agents[a].raw].status != Duplicate
  {
    Reachable(cfg, clock, acts);
    var s := Exec(cfg, Start(clock), acts);
    assert AgentOk(s.db.raws, s.agents[a]);
  }
}
