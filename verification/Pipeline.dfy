/**
 * The whole pipeline as a transition system. Each transaction is one step, except that a claim and an insert are split
 * where their locks matter to other transactions; row locks and uncommitted rows then last until the commit step.
 * Every choice (classifier, failures, scheduling, new ids, clock) is in the action, and an action that is not enabled
 * changes nothing, so any sequence of actions is a run.
 */
module Pipeline {
  import opened Options
  import opened Events
  import opened Tables
  import opened Normalization
  import opened Queue
  import opened Ingestion

  datatype Config = Config(maxAttempts: nat, window: nat, keepUnclassified: bool)

  type AgentId = nat

  /** What an agent remembers between two of its steps. An agent that is not in the map has nothing open. */
  datatype Agent =
    | Conflicted(vendor: string, hash: string)
    | Located(vendor: string, hash: string, parent: RawId)
    | Inserted(id: RawId, row: RawRow, ack: IngestResult)
    | Claiming(raw: RawId, since: int)
    | Working(raw: RawId, since: int)
    | Retrying(raw: RawId, since: int)
  {
    predicate Holder() {
      Working? || Retrying?
    }
  }

  datatype Sys = Sys(db: Db, agents: map<AgentId, Agent>, clock: int)

  datatype Action =
    | Tick(to: int)
    | InsertPrimary(a: AgentId, vendor: string, hash: string, id: RawId)
    | HitConflict(a: AgentId, vendor: string, hash: string)
    | LookUpParent(a: AgentId, parent: RawId)
    | InsertDuplicate(a: AgentId, id: RawId)
    | CommitInsert(a: AgentId)
    | SelectClaim(a: AgentId, raw: RawId)
    | CommitClaim(a: AgentId)
    | PersistEvent(a: AgentId, event: NormalizedEvent)
    | MarkFailure(a: AgentId, error: string)
    | AcquireRetry(a: AgentId, raw: RawId)
    | RecordRetryFailure(a: AgentId, error: string)
    | Reap(threshold: int)
    | Crash(a: AgentId)

  /** Rows locked by open claims. */
  function Locked(agents: map<AgentId, Agent>): set<RawId> {
    set a | a in agents && agents[a].Claiming? :: agents[a].raw
  }

  lemma LockedByOne(agents: map<AgentId, Agent>, a: AgentId, at: Agent)
    requires a !in agents
    ensures Locked(agents[a := at]) == Locked(agents) + if at.Claiming? then {at.raw} else {}
  {
    var agents' := agents[a := at];
    assert agents'[a] == at;
    forall b | b in agents && agents[b].Claiming?
      ensures agents[b].raw in Locked(agents')
    {
      assert agents'[b] == agents[b];
    }
  }

  predicate Unused(s: Sys, id: RawId) {
    id !in s.db.raws && forall a :: a in s.agents && s.agents[a].Inserted? ==> s.agents[a].id != id
  }

  /** An uncommitted primary makes a rival insert wait for its transaction to end. */
  predicate PrimaryInFlight(agents: map<AgentId, Agent>, vendor: string, hash: string) {
    exists a :: a in agents && agents[a].Inserted? && agents[a].row.Primary() && agents[a].row.SameKey(vendor, hash)
  }

  /** Agent a holds a raw row on which no claim is open, so its next statement is not blocked. */
  predicate HoldsFree(s: Sys, a: AgentId) {
    a in s.agents && s.agents[a].Holder() && s.agents[a].raw in s.db.raws && s.agents[a].raw !in Locked(s.agents)
  }

  ghost predicate Enabled(cfg: Config, s: Sys, act: Action) {
    match act
    case Tick(to) => s.clock <= to
    case InsertPrimary(a, vendor, hash, id) =>
      a !in s.agents && Unused(s, id)
      && !PrimaryExists(s.db.raws, vendor, hash) && !PrimaryInFlight(s.agents, vendor, hash)
    case HitConflict(a, vendor, hash) => a !in s.agents && PrimaryExists(s.db.raws, vendor, hash)
    case LookUpParent(a, parent) =>
      a in s.agents && s.agents[a].Conflicted? && IsParent(s.db.raws, s.agents[a].vendor, s.agents[a].hash, parent)
    case InsertDuplicate(a, id) => a in s.agents && s.agents[a].Located? && Unused(s, id)
    case CommitInsert(a) => a in s.agents && s.agents[a].Inserted?
    case SelectClaim(a, raw) => a !in s.agents && Oldest(s.db.raws, Locked(s.agents), raw)
    case CommitClaim(a) => a in s.agents && s.agents[a].Claiming? && s.agents[a].raw in s.db.raws
    case PersistEvent(a, event) => HoldsFree(s, a)
    case MarkFailure(a, error) => HoldsFree(s, a) && s.agents[a].Working?
    case AcquireRetry(a, raw) =>
      a !in s.agents && raw in s.db.raws && raw !in Locked(s.agents) && Acquirable(s.db.raws[raw])
    case RecordRetryFailure(a, error) => HoldsFree(s, a) && s.agents[a].Retrying?
    case Reap(threshold) => threshold <= s.clock - cfg.window
    case Crash(a) => a in s.agents
  }

  function WithRow(s: Sys, r: RawId, row: RawRow): Db {
    s.db.(raws := s.db.raws[r := row])
  }

  ghost function Apply(cfg: Config, s: Sys, act: Action): Sys
    requires Enabled(cfg, s, act)
  {
    match act
    case Tick(to) => s.(clock := to)
    case InsertPrimary(a, vendor, hash, id) =>
      s.(agents := s.agents[a := Inserted(id, NewPrimary(vendor, hash, s.clock), IngestResult(id, false, None))])
    case HitConflict(a, vendor, hash) => s.(agents := s.agents[a := Conflicted(vendor, hash)])
    case LookUpParent(a, parent) =>
      s.(agents := s.agents[a := Located(s.agents[a].vendor, s.agents[a].hash, parent)])
    case InsertDuplicate(a, id) =>
      var at := s.agents[a];
      s.(agents := s.agents[a := Inserted(id, NewDuplicate(at.vendor, at.hash, at.parent, s.clock),
                                          IngestResult(id, true, Some(at.parent)))])
    case CommitInsert(a) => Sys(WithRow(s, s.agents[a].id, s.agents[a].row), s.agents - {a}, s.clock)
    case SelectClaim(a, raw) => s.(agents := s.agents[a := Claiming(raw, s.clock)])
    case CommitClaim(a) =>
      var at := s.agents[a];
      Sys(WithRow(s, at.raw, Claimed(s.db.raws[at.raw], at.since)), s.agents[a := Working(at.raw, at.since)], s.clock)
    case PersistEvent(a, event) =>
      Sys(Persist(s.db, s.agents[a].raw, event, s.clock, cfg.keepUnclassified), s.agents - {a}, s.clock)
    case MarkFailure(a, error) =>
      var r := s.agents[a].raw;
      Sys(WithRow(s, r, FailureMarked(s.db.raws[r], error, cfg.maxAttempts)), s.agents - {a}, s.clock)
    case AcquireRetry(a, raw) =>
      Sys(WithRow(s, raw, Acquired(s.db.raws[raw], s.clock)), s.agents[a := Retrying(raw, s.clock)], s.clock)
    case RecordRetryFailure(a, error) =>
      var r := s.agents[a].raw;
      Sys(WithRow(s, r, RetryFailed(s.db.raws[r], error)), s.agents - {a}, s.clock)
    case Reap(threshold) => s.(db := s.db.(raws := Reaped(s.db.raws, threshold)))
    case Crash(a) => s.(agents := s.agents - {a})
  }

  ghost function Next(cfg: Config, s: Sys, act: Action): Sys {
    if Enabled(cfg, s, act) then Apply(cfg, s, act) else s
  }

  /** The state after a run; acts[..i] is the run's prefix of i steps. */
  ghost function Exec(cfg: Config, s: Sys, acts: seq<Action>): Sys {
    if acts == [] then s else Next(cfg, Exec(cfg, s, acts[..|acts| - 1]), acts[|acts| - 1])
  }

  function Start(clock: int): Sys {
    Sys(EMPTY_DB, map[], clock)
  }

  /** The step is the clock's, the reaper's or another agent's. */
  predicate ByOther(act: Action, a: AgentId) {
    act.Tick? || act.Reap? || act.a != a
  }

  predicate ByOthers(acts: seq<Action>, a: AgentId) {
    forall i :: 0 <= i < |acts| ==> ByOther(acts[i], a)
  }

  lemma ExecSnoc(cfg: Config, s: Sys, acts: seq<Action>, act: Action)
    ensures Exec(cfg, s, acts + [act]) == Next(cfg, Exec(cfg, s, acts), act)
  {
    assert (acts + [act])[..|acts|] == acts;
  }

  /** The state after step i of a run. */
  lemma ExecNext(cfg: Config, s: Sys, acts: seq<Action>, i: nat)
    requires i < |acts|
    ensures Exec(cfg, s, acts[..i + 1]) == Next(cfg, Exec(cfg, s, acts[..i]), acts[i])
  {
    assert acts[..i + 1][..i] == acts[..i];
  }

  lemma {:induction false} ExecConcat(cfg: Config, s: Sys, acts: seq<Action>, more: seq<Action>)
    ensures Exec(cfg, s, acts + more) == Exec(cfg, Exec(cfg, s, acts), more)
  {
    if more == [] {
      assert acts + more == acts;
    } else {
      assert (acts + more)[..|acts + more| - 1] == acts + more[..|more| - 1];
      ExecConcat(cfg, s, acts, more[..|more| - 1]);
    }
  }
}
