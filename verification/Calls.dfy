/** The service calls as functions on the tables, each with nothing else running in between. */
module Calls {
  import opened Events
  import opened Tables
  import opened Normalization
  import opened Queue
  import opened Pipeline

  /**
   * How classification and the persist transaction go. The statements of the transaction are numbered from 0 and its
   * commit comes last; `failAt` is the first one that raises, none of them if it is beyond the commit.
   */
  datatype Outcome =
    | ClassifyRaises(error: string)
    | Classified(event: NormalizedEvent, failAt: nat, error: string)
  {
    predicate Succeeds() {
      Classified? && failAt > Statements(event)
    }
  }

  /** The number of statements of persist_normalized: one flush for an unclassified event, else four. */
  function Statements(event: NormalizedEvent): nat {
    if event.payload.UnclassifiedPayload? then 1 else 4
  }

  /** process_one after its claim returned row r. */
  function ProcessedOne(cfg: Config, db: Db, r: RawId, outcome: Outcome, now: int): Db
    requires r in db.raws
  {
    var claimed := db.(raws := db.raws[r := Claimed(db.raws[r], now)]);
    if outcome.Succeeds() then Persist(claimed, r, outcome.event, now, cfg.keepUnclassified)
    else claimed.(raws := claimed.raws[r := FailureMarked(claimed.raws[r], outcome.error, cfg.maxAttempts)])
  }

  /** retry_raw_event on a row that it does not refuse. */
  function Retried(cfg: Config, db: Db, r: RawId, outcome: Outcome, now: int): Db
    requires r in db.raws
  {
    var acquired := db.(raws := db.raws[r := Acquired(db.raws[r], now)]);
    if outcome.Succeeds() then Persist(acquired, r, outcome.event, now, cfg.keepUnclassified)
    else acquired.(raws := acquired.raws[r := RetryFailed(acquired.raws[r], outcome.error)])
  }

  lemma ExecTwo(cfg: Config, s: Sys, x: Action, y: Action)
    ensures Exec(cfg, s, [x, y]) == Next(cfg, Next(cfg, s, x), y)
  {
    assert [x, y][..1] == [x] && [x][..0] == [];
    assert Exec(cfg, s, [x]) == Next(cfg, s, x);
  }

  lemma ExecThree(cfg: Config, s: Sys, x: Action, y: Action, z: Action)
    ensures Exec(cfg, s, [x, y, z]) == Next(cfg, Next(cfg, Next(cfg, s, x), y), z)
  {
    assert [x, y, z][..2] == [x, y];
    ExecTwo(cfg, s, x, y);
  }

  /** The last step of a call that holds a row. */
  function Finish(a: AgentId, outcome: Outcome, worker: bool): Action {
    if outcome.Succeeds() then PersistEvent(a, outcome.event)
    else if worker then MarkFailure(a, outcome.error) else RecordRetryFailure(a, outcome.error)
  }

  /** process_one is the run that claims, commits the claim and finishes. */
  lemma ProcessOneIsARun(cfg: Config, s: Sys, a: AgentId, r: RawId, outcome: Outcome)
    requires Enabled(cfg, s, SelectClaim(a, r))
    ensures Exec(cfg, s, [SelectClaim(a, r), CommitClaim(a), Finish(a, outcome, true)])
            == s.(db := ProcessedOne(cfg, s.db, r, outcome, s.clock))
  {
    ExecThree(cfg, s, SelectClaim(a, r), CommitClaim(a), Finish(a, outcome, true));
    var s1 := Next(cfg, s, SelectClaim(a, r));
    var s2 := Next(cfg, s1, CommitClaim(a));
    LockedByOne(s.agents, a, Working(r, s.clock));
    assert s2.agents == s.agents[a := Working(r, s.clock)];
    assert HoldsFree(s2, a);
    assert s2.agents - {a} == s.agents;
  }

  /** retry_raw_event is the run that acquires and finishes. */
  lemma RetryIsARun(cfg: Config, s: Sys, a: AgentId, r: RawId, outcome: Outcome)
    requires Enabled(cfg, s, AcquireRetry(a, r))
    ensures Exec(cfg, s, [AcquireRetry(a, r), Finish(a, outcome, false)])
            == s.(db := Retried(cfg, s.db, r, outcome, s.clock))
  {
    ExecTwo(cfg, s, AcquireRetry(a, r), Finish(a, outcome, false));
    var s1 := Next(cfg, s, AcquireRetry(a, r));
    LockedByOne(s.agents, a, Retrying(r, s.clock));
    assert s1.agents == s.agents[a := Retrying(r, s.clock)];
    assert HoldsFree(s1, a);
    assert s1.agents - {a} == s.agents;
  }

  /** The tables after the first k statements of persist_normalized, of which there are Statements(event). */
  function StatementsDone(db: Db, raw: RawId, event: NormalizedEvent, now: int, keep: bool, k: nat): Db
    requires raw in db.raws
  {
    if k >= Statements(event) then Persist(db, raw, event, now, keep)
    else if event.payload.EntityKind().None? then db
    else
      var kind, row := event.payload.EntityKind().value, Persisted(raw, db.raws[raw].vendorHint, event, now).Row();
      if k == 0 then db
      else if k == 1 then db.WithStore(kind, Upserted(db.StoreOf(kind), row, now))
      else if k == 2 then db.WithStore(kind, EventInserted(Upserted(db.StoreOf(kind), row, now), row))
      else db.WithStore(kind, Record(db.StoreOf(kind), row, now))
  }

  /** What a pending row, or a processing one if `held` rows count, can still cost: the attempts it has left, or one. */
  function Cost(cfg: Config, raws: map<RawId, RawRow>, r: RawId, held: bool): nat {
    if r !in raws || !(raws[r].status == Pending || (held && raws[r].status == Processing)) then 0
    else if raws[r].attempts + 1 < cfg.maxAttempts then cfg.maxAttempts - raws[r].attempts
    else 1
  }

  /** The sum of the costs of the rows with ids below n. */
  function Work(cfg: Config, raws: map<RawId, RawRow>, n: nat, held: bool): nat {
    if n == 0 then 0 else Work(cfg, raws, n - 1, held) + Cost(cfg, raws, n - 1, held)
  }

  lemma {:induction false} WorkOfUpdate(cfg: Config, raws: map<RawId, RawRow>, raws': map<RawId, RawRow>, n: nat,
                                        r: RawId, held: bool)
    requires forall q :: q != r ==> Cost(cfg, raws, q, held) == Cost(cfg, raws', q, held)
    ensures Work(cfg, raws', n, held)
            == Work(cfg, raws, n, held) + if r < n then Cost(cfg, raws', r, held) - Cost(cfg, raws, r, held) else 0
  {
    if n == 0 {
    } else {
      WorkOfUpdate(cfg, raws, raws', n - 1, r, held);
    }
  }

  /** One call of process_one takes the row out of pending or uses up at least one unit of its cost. */
  lemma ProcessOneWorks(cfg: Config, db: Db, r: RawId, outcome: Outcome, now: int, n: nat, held: bool)
    requires r in db.raws && db.raws[r].status == Pending && r < n
    ensures Work(cfg, ProcessedOne(cfg, db, r, outcome, now).raws, n, held) < Work(cfg, db.raws, n, held)
    ensures !outcome.Succeeds() ==>
              Work(cfg, ProcessedOne(cfg, db, r, outcome, now).raws, n, held) == Work(cfg, db.raws, n, held) - 1
  {
    var raws' := ProcessedOne(cfg, db, r, outcome, now).raws;
    assert forall q :: q != r ==> Cost(cfg, db.raws, q, held) == Cost(cfg, raws', q, held);
    WorkOfUpdate(cfg, db.raws, raws', n, r, held);
  }

  /** A reap moves work from processing to pending rows; counting both, it changes nothing. */
  lemma {:induction false} ReapKeepsWork(cfg: Config, raws: map<RawId, RawRow>, threshold: int, n: nat)
    ensures Work(cfg, Reaped(raws, threshold), n, true) == Work(cfg, raws, n, true)
  {
    if n == 0 {
    } else {
      ReapKeepsWork(cfg, raws, threshold, n - 1);
    }
  }
}
