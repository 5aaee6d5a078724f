/** Runs that show that the hypotheses of the main results cannot be dropped. */
module Witnesses {
  import opened Options
  import opened Events
  import opened Tables
  import opened Normalization
  import opened History
  import opened Queue
  import opened Ingestion
  import opened Pipeline
  import opened Attempts
  import opened Lease
  import opened Calls
  import S = Serializability
  import L = LateNote
  import O = RowOverlaps

  const ROW := NewPrimary("v", "h", 0)

  /** Two more steps. */
  lemma TwoMore(cfg: Config, acts: seq<Action>, x: Action, y: Action)
    ensures Exec(cfg, Start(0), acts + [x, y]) == Next(cfg, Next(cfg, Exec(cfg, Start(0), acts), x), y)
  {
    ExecConcat(cfg, Start(0), acts, [x, y]);
    ExecTwo(cfg, Exec(cfg, Start(0), acts), x, y);
  }

  function InsertedRun(): seq<Action> {
    [] + [InsertPrimary(0, "v", "h", 0), CommitInsert(0)]
  }

  lemma AfterInsertedRun(cfg: Config)
    ensures Exec(cfg, Start(0), InsertedRun()) == Sys(OneRow(ROW), map[], 0)
  {
    TwoMore(cfg, [], InsertPrimary(0, "v", "h", 0), CommitInsert(0));
    var s1 := Next(cfg, Start(0), InsertPrimary(0, "v", "h", 0));
    assert s1 == Sys(EMPTY_DB, map[0 := Inserted(0, ROW, IngestResult(0, false, None))], 0);
    assert s1.agents - {0} == map[];
  }

  /** Worker a selects and commits a claim of the one row, which is pending and not locked. */
  lemma ClaimsOneRow(cfg: Config, acts: seq<Action>, a: AgentId, row: RawRow, agents: map<AgentId, Agent>, clock: int)
    requires Exec(cfg, Start(0), acts) == Sys(OneRow(row), agents, clock)
    requires row.status == Pending && a !in agents && Locked(agents) == {}
    ensures Exec(cfg, Start(0), acts + [SelectClaim(a, 0), CommitClaim(a)])
            == Sys(OneRow(Claimed(row, clock)), agents[a := Working(0, clock)], clock)
  {
    TwoMore(cfg, acts, SelectClaim(a, 0), CommitClaim(a));
    var s := Sys(OneRow(row), agents, clock);
    assert Oldest(s.db.raws, {}, 0);
    var s1 := Next(cfg, s, SelectClaim(a, 0));
    assert s1 == Sys(OneRow(row), agents[a := Claiming(0, clock)], clock);
    assert agents[a := Claiming(0, clock)][a := Working(0, clock)] == agents[a := Working(0, clock)];
    assert map[0 := row][0 := Claimed(row, clock)] == map[0 := Claimed(row, clock)];
  }

  /** A manual retry acquires the one row. */
  lemma AcquiresOneRow(cfg: Config, acts: seq<Action>, a: AgentId, row: RawRow, agents: map<AgentId, Agent>)
    requires Exec(cfg, Start(0), acts) == Sys(OneRow(row), agents, 0)
    requires Acquirable(row) && a !in agents && Locked(agents) == {}
    ensures Exec(cfg, Start(0), acts + [AcquireRetry(a, 0)])
            == Sys(OneRow(Acquired(row, 0)), agents[a := Retrying(0, 0)], 0)
    ensures Locked(agents[a := Retrying(0, 0)]) == {}
  {
    ExecSnoc(cfg, Start(0), acts, AcquireRetry(a, 0));
    LockedByOne(agents, a, Retrying(0, 0));
    assert map[0 := row][0 := Acquired(row, 0)] == map[0 := Acquired(row, 0)];
  }

  /** A holder persists the one row. */
  lemma PersistsOneRow(cfg: Config, acts: seq<Action>, a: AgentId, row: RawRow, agents: map<AgentId, Agent>, clock: int,
                       event: NormalizedEvent)
    requires Exec(cfg, Start(0), acts) == Sys(OneRow(row), agents, clock)
    requires a in agents && agents[a].Holder() && agents[a].raw == 0 && Locked(agents) == {}
    ensures Exec(cfg, Start(0), acts + [PersistEvent(a, event)])
            == Sys(Persist(OneRow(row), 0, event, clock, cfg.keepUnclassified), agents - {a}, clock)
  {
    ExecSnoc(cfg, Start(0), acts, PersistEvent(a, event));
    assert HoldsFree(Sys(OneRow(row), agents, clock), a);
  }

  /** Insert row 0 at time 0, and claim it. */
  function ClaimedRun(): seq<Action> {
    InsertedRun() + [SelectClaim(1, 0), CommitClaim(1)]
  }

  lemma AfterClaimedRun(cfg: Config)
    ensures Exec(cfg, Start(0), ClaimedRun()) == Sys(OneRow(Claimed(ROW, 0)), map[1 := Working(0, 0)], 0)
  {
    AfterInsertedRun(cfg);
    ClaimsOneRow(cfg, InsertedRun(), 1, ROW, map[], 0);
  }

  /** Then let the lease expire and reap the row. */
  function ReapedRun(cfg: Config): seq<Action> {
    ClaimedRun() + [Tick(cfg.window + 1), Reap(1)]
  }

  lemma AfterReapedRun(cfg: Config)
    ensures Exec(cfg, Start(0), ReapedRun(cfg)) == Sys(OneRow(ROW), map[1 := Working(0, 0)], cfg.window + 1)
  {
    AfterClaimedRun(cfg);
    TwoMore(cfg, ClaimedRun(), Tick(cfg.window + 1), Reap(1));
    var s := Sys(OneRow(Claimed(ROW, 0)), map[1 := Working(0, 0)], cfg.window + 1);
    assert Next(cfg, Exec(cfg, Start(0), ClaimedRun()), Tick(cfg.window + 1)) == s;
    assert Reaped(s.db.raws, 1) == map[0 := ROW];
  }

  /** Then let a second worker claim and persist it. */
  function OvertakenRun(cfg: Config, event: NormalizedEvent): seq<Action> {
    ReapedRun(cfg) + [SelectClaim(2, 0), CommitClaim(2)] + [PersistEvent(2, event)]
  }

  lemma AfterOvertakenRun(cfg: Config, event: NormalizedEvent)
    ensures Exec(cfg, Start(0), OvertakenRun(cfg, event)) == Sys(
              Persist(OneRow(Claimed(ROW, cfg.window + 1)), 0, event, cfg.window + 1, cfg.keepUnclassified),
              map[1 := Working(0, 0)], cfg.window + 1)
  {
    AfterReapedRun(cfg);
    var row, agents := Claimed(ROW, cfg.window + 1), map[1 := Working(0, 0), 2 := Working(0, cfg.window + 1)];
    ClaimsOneRow(cfg, ReapedRun(cfg), 2, ROW, map[1 := Working(0, 0)], cfg.window + 1);
    assert Locked(agents) == {};
    PersistsOneRow(cfg, ReapedRun(cfg) + [SelectClaim(2, 0), CommitClaim(2)], 2, row, agents, cfg.window + 1, event);
    assert agents - {2} == map[1 := Working(0, 0)];
  }

  /** Without LEASE processed is not absorbing: the overtaken worker's failure takes the row out of it. */
  lemma StaleHolderUndoesProcessed(cfg: Config, event: NormalizedEvent, error: string)
    ensures var raws := Exec(cfg, Start(0), OvertakenRun(cfg, event)).db.raws;
            0 in raws && raws[0].status == Processed
    ensures var raws := Exec(cfg, Start(0), OvertakenRun(cfg, event) + [MarkFailure(1, error)]).db.raws;
            0 in raws && raws[0].status != Processed
  {
    AfterOvertakenRun(cfg, event);
    var s := Exec(cfg, Start(0), OvertakenRun(cfg, event));
    assert Locked(s.agents) == {} && HoldsFree(s, 1);
    ExecSnoc(cfg, Start(0), OvertakenRun(cfg, event), MarkFailure(1, error));
  }

  /** Then let the overtaken worker persist its own classification. */
  lemma AfterSecondPersist(cfg: Config, kind: Kind, event: NormalizedEvent, other: NormalizedEvent)
    requires event.payload.EntityKind() == other.payload.EntityKind() == Some(kind)
    ensures var now := cfg.window + 1;
            var st := Exec(cfg, Start(0), OvertakenRun(cfg, event)).db.StoreOf(kind);
            && st == Record(EMPTY_STORE, Persisted(0, "v", event, now).Row(), now)
            && Exec(cfg, Start(0), OvertakenRun(cfg, event) + [PersistEvent(1, other)]).db.StoreOf(kind)
               == Record(st, Persisted(0, "v", other, now).Row(), now)
  {
    AfterOvertakenRun(cfg, event);
    var s := Exec(cfg, Start(0), OvertakenRun(cfg, event));
    assert Locked(s.agents) == {} && HoldsFree(s, 1);
    ExecSnoc(cfg, Start(0), OvertakenRun(cfg, event), PersistEvent(1, other));
  }

  /** Without DET cache and history part: the overtaken worker's newer classification moves the entity unrecorded. */
  lemma SecondClassificationDisagrees(cfg: Config, kind: Kind, event: NormalizedEvent, other: NormalizedEvent)
    requires event.payload.EntityKind() == other.payload.EntityKind() == Some(kind)
    requires event.payload.ExternalRef() == other.payload.ExternalRef()
    requires EnsureUtc(event.eventAt) < EnsureUtc(other.eventAt)
    ensures CacheAgrees(Exec(cfg, Start(0), OvertakenRun(cfg, event)).db.StoreOf(kind))
    ensures !CacheAgrees(Exec(cfg, Start(0), OvertakenRun(cfg, event) + [PersistEvent(1, other)]).db.StoreOf(kind))
  {
    AfterSecondPersist(cfg, kind, event, other);
    var now := cfg.window + 1;
    var row := Persisted(0, "v", event, now).Row();
    var st := Record(EMPTY_STORE, row, now);
    AgreementKeptIff(EMPTY_STORE, row, now);
    assert st.events[0].rawId == 0;
    AgreementKeptIff(st, Persisted(0, "v", other, now).Row(), now);
  }

  /** A manual retry of a processing row gives the row two live holders, with every lease kept. */
  lemma RetryAddsSecondHolder(cfg: Config)
    requires cfg.window > 0
    ensures var s := Exec(cfg, Start(0), ClaimedRun() + [AcquireRetry(2, 0)]);
            s.agents == map[1 := Working(0, 0), 2 := Retrying(0, 0)] && LeaseHeld(cfg, s) && !Exclusive(s)
  {
    AfterClaimedRun(cfg);
    assert Locked(map[1 := Working(0, 0)]) == {};
    AcquiresOneRow(cfg, ClaimedRun(), 2, Claimed(ROW, 0), map[1 := Working(0, 0)]);
    var s' := Exec(cfg, Start(0), ClaimedRun() + [AcquireRetry(2, 0)]);
    assert s'.agents[1].Holder() && s'.agents[2].Holder() && s'.agents[1].raw == s'.agents[2].raw;
  }

  /** Insert row 0, then n manual retries of it that fail. */
  function RetriedRun(n: nat, error: string): seq<Action> {
    if n == 0 then InsertedRun() else RetriedRun(n - 1, error) + [AcquireRetry(2, 0), RecordRetryFailure(2, error)]
  }

  function RetriedRow(n: nat, error: string): RawRow {
    if n == 0 then ROW else ROW.(attempts := n, lockedAt := Some(0), lastError := Some(error))
  }

  lemma RetryFailsOnce(cfg: Config, acts: seq<Action>, n: nat, error: string)
    requires Exec(cfg, Start(0), acts) == Sys(OneRow(RetriedRow(n, error)), map[], 0)
    ensures Exec(cfg, Start(0), acts + [AcquireRetry(2, 0), RecordRetryFailure(2, error)])
            == Sys(OneRow(RetriedRow(n + 1, error)), map[], 0)
  {
    TwoMore(cfg, acts, AcquireRetry(2, 0), RecordRetryFailure(2, error));
    var s := Sys(OneRow(RetriedRow(n, error)), map[], 0);
    assert Locked(s.agents) == {};
    var acquired := Acquired(RetriedRow(n, error), 0);
    var s1 := Next(cfg, s, AcquireRetry(2, 0));
    assert s1 == Sys(OneRow(acquired), map[2 := Retrying(0, 0)], 0);
    assert Locked(s1.agents) == {} && HoldsFree(s1, 2);
    assert s1.agents - {2} == map[];
    assert RetryFailed(acquired, error) == RetriedRow(n + 1, error);
  }

  lemma {:induction false} AfterRetriedRun(cfg: Config, n: nat, error: string)
    ensures Exec(cfg, Start(0), RetriedRun(n, error)) == Sys(OneRow(RetriedRow(n, error)), map[], 0)
  {
    if n == 0 {
      AfterInsertedRun(cfg);
    } else {
      AfterRetriedRun(cfg, n - 1, error);
      RetryFailsOnce(cfg, RetriedRun(n - 1, error), n - 1, error);
    }
  }

  /** For every maximum, that many failed manual retries leave a pending row with no attempt left. */
  lemma RetryExceedsBudget(cfg: Config, error: string)
    ensures !WithinBudget(cfg, Exec(cfg, Start(0), RetriedRun(cfg.maxAttempts, error)).db.raws)
  {
    AfterRetriedRun(cfg, cfg.maxAttempts, error);
    assert RetriedRow(cfg.maxAttempts, error).status == Pending;
    assert Exec(cfg, Start(0), RetriedRun(cfg.maxAttempts, error)).db.raws[0] == RetriedRow(cfg.maxAttempts, error);
  }

  /** In a reachable state two holders can persist one row; a drop that commits between marks it for good. */
  lemma LateNoteIsReachable(cfg: Config, a: S.Spec, b: S.Spec, kind: Kind)
    requires cfg.window > 0 && a.raw == b.raw == 0
    requires a.event.payload.EntityKind() == Some(kind) && b.event.payload.UnclassifiedPayload?
    ensures var s := Exec(cfg, Start(0), ClaimedRun() + [AcquireRetry(2, 0)]);
            && s.agents == map[1 := Working(0, 0), 2 := Retrying(0, 0)]
            && S.Commits(s.db, L.LateRun(a, b), false) == [b, a]
            && S.Exec(s.db, L.LateRun(a, b), false).db != S.Serial(s.db, [b, a], false)
  {
    AfterClaimedRun(cfg);
    assert Locked(map[1 := Working(0, 0)]) == {};
    AcquiresOneRow(cfg, ClaimedRun(), 2, Claimed(ROW, 0), map[1 := Working(0, 0)]);
    var row := Acquired(Claimed(ROW, 0), 0);
    L.LastErrorNotSerializable(row, a, b, kind);
  }

  /** Two manual retries of the claimed row; the second one persists it. */
  function ThreeHoldersRun(event: NormalizedEvent): seq<Action> {
    ClaimedRun() + [AcquireRetry(2, 0)] + [AcquireRetry(3, 0)] + [PersistEvent(3, event)]
  }

  lemma AfterThreeHoldersRun(cfg: Config, event: NormalizedEvent)
    ensures Exec(cfg, Start(0), ThreeHoldersRun(event)) == Sys(
              Persist(OneRow(Acquired(Acquired(Claimed(ROW, 0), 0), 0)), 0, event, 0, cfg.keepUnclassified),
              map[1 := Working(0, 0), 2 := Retrying(0, 0)], 0)
  {
    AfterClaimedRun(cfg);
    var one, two := map[1 := Working(0, 0)], map[1 := Working(0, 0)][2 := Retrying(0, 0)];
    var three := two[3 := Retrying(0, 0)];
    var row := Acquired(Claimed(ROW, 0), 0);
    assert Locked(one) == {};
    AcquiresOneRow(cfg, ClaimedRun(), 2, Claimed(ROW, 0), one);
    AcquiresOneRow(cfg, ClaimedRun() + [AcquireRetry(2, 0)], 3, row, two);
    var acts := ClaimedRun() + [AcquireRetry(2, 0)] + [AcquireRetry(3, 0)];
    PersistsOneRow(cfg, acts, 3, Acquired(row, 0), three, 0, event);
    assert three - {3} == two;
  }

  /**
   * In a reachable state with a processed row a worker that fails and a retry that persists both hold the row; read by
   * both and written by the worker first, it ends as the worker leaves it.
   */
  lemma LostMarkIsReachable(cfg: Config, event: NormalizedEvent, error: string)
    ensures var s := Exec(cfg, Start(0), ThreeHoldersRun(event));
            var persist := O.PersistCall(event, 0, cfg.keepUnclassified);
            var failure := O.FailureCall(error, cfg.maxAttempts);
            && s.agents == map[1 := Working(0, 0), 2 := Retrying(0, 0)] && s.db.raws.Keys == {0}
            && s.db.raws[0].status == Processed
            && O.Commits(s.db.raws[0], O.SecondFirst(persist, failure)) == [failure, persist]
            && O.Exec(s.db.raws[0], O.SecondFirst(persist, failure)).row.status != Processed
            && O.Serial(s.db.raws[0], [failure, persist]).status == Processed
  {
    AfterThreeHoldersRun(cfg, event);
    var s := Exec(cfg, Start(0), ThreeHoldersRun(event));
    O.MarkIsLost(s.db.raws[0], event, 0, cfg.keepUnclassified, error, cfg.maxAttempts);
  }
}
