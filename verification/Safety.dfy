/** Invariants of every reachable state, with any number of agents, crashes, reaps, stale holders and manual retries. */
module Safety {
  import opened Tables
  import opened Ingestion
  import opened Pipeline

  /**
   * Per row: duplicate status and parent go together, a processing row carries its claim time, a failed row carries an
   * error and no claim time, and a processed row carries the time it was processed.
   */
  predicate RowOk(row: RawRow) {
    && (row.status == Duplicate <==> row.duplicateOf.Some?)
    && (row.status == Processing ==> row.lockedAt.Some?)
    && (row.status == Failed ==> row.lastError.Some? && row.lockedAt.None?)
    && (row.status == Processed ==> row.processedAt.Some?)
  }

  /** Duplicates form stars: a duplicate points at the one primary row of its own key. */
  predicate PointsAtPrimary(raws: map<RawId, RawRow>, row: RawRow) {
    row.duplicateOf.Some? ==> IsPrimary(raws, row.vendorHint, row.hashExact, row.duplicateOf.value)
  }

  ghost predicate StarForest(raws: map<RawId, RawRow>) {
    && (forall v, h, r, q :: IsPrimary(raws, v, h, r) && IsPrimary(raws, v, h, q) ==> r == q)
    && (forall r :: r in raws ==> PointsAtPrimary(raws, raws[r]))
  }

  /** What an agent's memory says about the committed rows. */
  ghost predicate AgentOk(raws: map<RawId, RawRow>, at: Agent) {
    match at
    case Conflicted(vendor, hash) => PrimaryExists(raws, vendor, hash)
    case Located(vendor, hash, parent) => IsPrimary(raws, vendor, hash, parent)
    case Inserted(id, row, ack) =>
      && id !in raws && RowOk(row) && PointsAtPrimary(raws, row)
      && (row.Primary() ==> !PrimaryExists(raws, row.vendorHint, row.hashExact))
      && row.attempts == 0 && (row.Primary() ==> row.status == Pending)
      && ack == IngestResult(id, row.duplicateOf.Some?, row.duplicateOf)
    case Claiming(raw, since) => raw in raws && raws[raw].Primary() && raws[raw].status == Pending
    case Working(raw, since) => raw in raws && raws[raw].Primary()
    case Retrying(raw, since) => raw in raws && raws[raw].Primary()
  }

  predicate SamePrimaryKey(x: RawRow, y: RawRow) {
    x.Primary() && y.Primary() && x.SameKey(y.vendorHint, y.hashExact)
  }

  /** Open transactions of two agents do not collide: on a new id, on a primary key, or on a claimed row. */
  predicate Apart(x: Agent, y: Agent) {
    && (x.Inserted? && y.Inserted? ==> x.id != y.id && !SamePrimaryKey(x.row, y.row))
    && (x.Claiming? && y.Claiming? ==> x.raw != y.raw)
  }

  ghost predicate Inv(s: Sys) {
    && (forall r :: r in s.db.raws ==> RowOk(s.db.raws[r]))
    && StarForest(s.db.raws)
    && (forall a :: a in s.agents ==> AgentOk(s.db.raws, s.agents[a]))
    && (forall a, b :: a in s.agents && b in s.agents && a != b ==> Apart(s.agents[a], s.agents[b]))
  }

  /** The same rows, each with its identity columns unchanged. */
  ghost predicate SameRows(raws: map<RawId, RawRow>, raws': map<RawId, RawRow>) {
    raws.Keys == raws'.Keys && forall r :: r in raws ==> raws[r].SameIdentity(raws'[r])
  }

  lemma SameRowsKeepPrimaries(raws: map<RawId, RawRow>, raws': map<RawId, RawRow>)
    requires SameRows(raws, raws')
    ensures forall v, h, r :: IsPrimary(raws, v, h, r) <==> IsPrimary(raws', v, h, r)
    ensures forall v, h :: PrimaryExists(raws, v, h) <==> PrimaryExists(raws', v, h)
    ensures StarForest(raws) ==> StarForest(raws')
  {
    forall v, h
      ensures PrimaryExists(raws, v, h) <==> PrimaryExists(raws', v, h)
    {
      if PrimaryExists(raws, v, h) {
        var r :| IsPrimary(raws, v, h, r);
        assert IsPrimary(raws', v, h, r);
      }
      if PrimaryExists(raws', v, h) {
        var r :| IsPrimary(raws', v, h, r);
        assert IsPrimary(raws, v, h, r);
      }
    }
    if StarForest(raws) {
      forall r | r in raws'
        ensures PointsAtPrimary(raws', raws'[r])
      {
        assert PointsAtPrimary(raws, raws[r]);
      }
    }
  }

  /** Steps that do not commit a new raw row keep all rows and their identity. */
  lemma OnlyCommitInsertAddsRows(cfg: Config, s: Sys, act: Action)
    requires !act.CommitInsert?
    ensures SameRows(s.db.raws, Next(cfg, s, act).db.raws)
  {
  }

  lemma RowStaysOk(cfg: Config, s: Sys, act: Action, r: RawId)
    requires Inv(s) && r in Next(cfg, s, act).db.raws
    ensures RowOk(Next(cfg, s, act).db.raws[r])
  {
    assert r in s.db.raws ==> RowOk(s.db.raws[r]);
    if Enabled(cfg, s, act) && !act.Tick? && !act.Reap? && act.a in s.agents {
      assert AgentOk(s.db.raws, s.agents[act.a]);
    }
  }

  /** Committing a new row changes which keys have a primary at most for the row's own key. */
  lemma CommittedRow(raws: map<RawId, RawRow>, id: RawId, row: RawRow)
    requires id !in raws
    ensures var raws' := raws[id := row];
            && (forall v, h, r :: IsPrimary(raws', v, h, r) <==>
                  IsPrimary(raws, v, h, r) || (r == id && row.Primary() && row.SameKey(v, h)))
            && (forall v, h :: PrimaryExists(raws', v, h) <==>
                  PrimaryExists(raws, v, h) || (row.Primary() && row.SameKey(v, h)))
  {
    var raws' := raws[id := row];
    forall v, h
      ensures PrimaryExists(raws', v, h) <==> PrimaryExists(raws, v, h) || (row.Primary() && row.SameKey(v, h))
    {
      if PrimaryExists(raws, v, h) {
        var r :| IsPrimary(raws, v, h, r);
        assert IsPrimary(raws', v, h, r);
      }
      if row.Primary() && row.SameKey(v, h) {
        assert IsPrimary(raws', v, h, id);
      }
      if PrimaryExists(raws', v, h) {
        var r :| IsPrimary(raws', v, h, r);
        assert r == id || IsPrimary(raws, v, h, r);
      }
    }
  }

  lemma StarForestStays(cfg: Config, s: Sys, act: Action)
    requires Inv(s)
    ensures StarForest(Next(cfg, s, act).db.raws)
  {
    if !act.CommitInsert? {
      OnlyCommitInsertAddsRows(cfg, s, act);
      SameRowsKeepPrimaries(s.db.raws, Next(cfg, s, act).db.raws);
    } else if Enabled(cfg, s, act) {
      var at := s.agents[act.a];
      assert AgentOk(s.db.raws, at);
      CommittedRow(s.db.raws, at.id, at.row);
    }
  }

  /** What an agent knows carries over to rows of the same identity, if the row of an open claim is as it was. */
  lemma AgentOkCarries(raws: map<RawId, RawRow>, raws': map<RawId, RawRow>, at: Agent)
    requires SameRows(raws, raws') && AgentOk(raws, at)
    requires at.Claiming? ==> raws'[at.raw] == raws[at.raw]
    ensures AgentOk(raws', at)
  {
    SameRowsKeepPrimaries(raws, raws');
  }

  /** The row that an open claim has selected is locked: it stays as it was until the claim commits. */
  lemma ClaimStays(cfg: Config, s: Sys, act: Action, b: AgentId)
    requires Inv(s) && Enabled(cfg, s, act) && !act.CommitInsert?
    requires b in s.agents && s.agents[b].Claiming? && (act.CommitClaim? ==> act.a != b)
    ensures s.agents[b].raw in Next(cfg, s, act).db.raws
    ensures Next(cfg, s, act).db.raws[s.agents[b].raw] == s.db.raws[s.agents[b].raw]
  {
    assert AgentOk(s.db.raws, s.agents[b]);
    assert s.agents[b].raw in Locked(s.agents);
    if act.CommitClaim? {
      assert Apart(s.agents[act.a], s.agents[b]);
    }
  }

  /** A new row takes nothing away from what other agents know. */
  lemma InsertKeepsOthers(raws: map<RawId, RawRow>, inserter: Agent, at: Agent)
    requires inserter.Inserted? && AgentOk(raws, inserter) && AgentOk(raws, at) && Apart(inserter, at)
    ensures AgentOk(raws[inserter.id := inserter.row], at)
  {
    CommittedRow(raws, inserter.id, inserter.row);
  }

  /** Agents other than the one that moves keep what they know. */
  lemma OthersStayOk(cfg: Config, s: Sys, act: Action, b: AgentId)
    requires Inv(s) && Enabled(cfg, s, act)
    requires b in s.agents && b in Next(cfg, s, act).agents && s.agents[b] == Next(cfg, s, act).agents[b]
    ensures AgentOk(Next(cfg, s, act).db.raws, s.agents[b])
  {
    assert AgentOk(s.db.raws, s.agents[b]);
    if act.CommitInsert? {
      assert AgentOk(s.db.raws, s.agents[act.a]) && Apart(s.agents[act.a], s.agents[b]);
      InsertKeepsOthers(s.db.raws, s.agents[act.a], s.agents[b]);
    } else {
      OnlyCommitInsertAddsRows(cfg, s, act);
      if s.agents[b].Claiming? {
        ClaimStays(cfg, s, act, b);
      }
      AgentOkCarries(s.db.raws, Next(cfg, s, act).db.raws, s.agents[b]);
    }
  }

  lemma MoverIsOk(cfg: Config, s: Sys, act: Action, b: AgentId)
    requires Inv(s) && Enabled(cfg, s, act)
    requires b in Next(cfg, s, act).agents && (b in s.agents ==> s.agents[b] != Next(cfg, s, act).agents[b])
    ensures AgentOk(Next(cfg, s, act).db.raws, Next(cfg, s, act).agents[b])
  {
    if b in s.agents {
      assert AgentOk(s.db.raws, s.agents[b]);
    }
    if !act.CommitInsert? {
      OnlyCommitInsertAddsRows(cfg, s, act);
      SameRowsKeepPrimaries(s.db.raws, Next(cfg, s, act).db.raws);
    }
  }

  lemma MoverStaysApart(cfg: Config, s: Sys, act: Action, a: AgentId, b: AgentId)
    requires Inv(s) && Enabled(cfg, s, act) && a != b && a in Next(cfg, s, act).agents
    requires b in s.agents && b in Next(cfg, s, act).agents && s.agents[b] == Next(cfg, s, act).agents[b]
    ensures Apart(Next(cfg, s, act).agents[a], s.agents[b]) && Apart(s.agents[b], Next(cfg, s, act).agents[a])
  {
    if a in s.agents {
      assert Apart(s.agents[a], s.agents[b]) && Apart(s.agents[b], s.agents[a]);
    }
  }

  lemma NextKeepsInv(cfg: Config, s: Sys, act: Action)
    requires Inv(s)
    ensures Inv(Next(cfg, s, act))
  {
    var s' := Next(cfg, s, act);
    forall r | r in s'.db.raws
      ensures RowOk(s'.db.raws[r])
    {
      RowStaysOk(cfg, s, act, r);
    }
    StarForestStays(cfg, s, act);
    if Enabled(cfg, s, act) {
      forall b | b in s'.agents
        ensures AgentOk(s'.db.raws, s'.agents[b])
      {
        if b in s.agents && s.agents[b] == s'.agents[b] {
          OthersStayOk(cfg, s, act, b);
        } else {
          MoverIsOk(cfg, s, act, b);
        }
      }
    }
    forall a, b | a in s'.agents && b in s'.agents && a != b
      ensures Apart(s'.agents[a], s'.agents[b])
    {
      if !Enabled(cfg, s, act) {
        assert Apart(s.agents[a], s.agents[b]);
      } else if b in s.agents && s.agents[b] == s'.agents[b] {
        MoverStaysApart(cfg, s, act, a, b);
      } else {
        MoverStaysApart(cfg, s, act, b, a);
      }
    }
  }

  /** The invariant holds in every reachable state. */
  lemma {:induction false} Reachable(cfg: Config, clock: int, acts: seq<Action>)
    ensures Inv(Exec(cfg, Start(clock), acts))
  {
    if acts == [] {
    } else {
      Reachable(cfg, clock, acts[..|acts| - 1]);
      NextKeepsInv(cfg, Exec(cfg, Start(clock), acts[..|acts| - 1]), acts[|acts| - 1]);
    }
  }
}
