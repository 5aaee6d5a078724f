/** Duplicate detection when the three phases of overlapping inserts interleave. */
module Dedup {
  import opened Options
  import opened Tables
  import opened Ingestion
  import opened Pipeline
  import opened Safety
  import opened Calls

  /** In every run there is at most one primary row per key, every duplicate points at the primary of its own key, and
      the duplicate status marks exactly the rows that have a parent. */
  lemma StarForestInEveryRun(cfg: Config, clock: int, acts: seq<Action>)
    ensures StarForest(Exec(cfg, Start(clock), acts).db.raws)
    ensures forall r :: r in Exec(cfg, Start(clock), acts).db.raws ==>
              (Exec(cfg, Start(clock), acts).db.raws[r].status == Duplicate <==>
               Exec(cfg, Start(clock), acts).db.raws[r].duplicateOf.Some?)
  {
    Reachable(cfg, clock, acts);
    var s := Exec(cfg, Start(clock), acts);
    assert forall r :: r in s.db.raws ==> RowOk(s.db.raws[r]);
  }

  /** After a conflict the phase-2 query always finds a parent, and only one. */
  lemma LookUpFindsExactlyOne(cfg: Config, clock: int, acts: seq<Action>, a: AgentId) returns (parent: RawId)
    requires a in Exec(cfg, Start(clock), acts).agents && Exec(cfg, Start(clock), acts).agents[a].Conflicted?
    ensures forall p :: Enabled(cfg, Exec(cfg, Start(clock), acts), LookUpParent(a, p)) <==> p == parent
  {
    Reachable(cfg, clock, acts);
    var s := Exec(cfg, Start(clock), acts);
    var at := s.agents[a];
    assert AgentOk(s.db.raws, at);
    parent :| IsPrimary(s.db.raws, at.vendor, at.hash, parent);
  }

  datatype Ack = Ack(vendor: string, hash: string, answer: IngestResult)

  ghost function CommittedAck(cfg: Config, s: Sys, act: Action): seq<Ack> {
    if act.CommitInsert? && Enabled(cfg, s, act) then
      var at := s.agents[act.a];
      [Ack(at.row.vendorHint, at.row.hashExact, at.ack)]
    else []
  }

  /** The answers of the committed calls of insert_raw_event, in commit order. */
  ghost function Acks(cfg: Config, s: Sys, acts: seq<Action>): seq<Ack> {
    if acts == [] then []
    else Acks(cfg, s, acts[..|acts| - 1]) + CommittedAck(cfg, Exec(cfg, s, acts[..|acts| - 1]), acts[|acts| - 1])
  }

  /** The answer describes the committed row. */
  ghost predicate Truthful(raws: map<RawId, RawRow>, ack: Ack) {
    && ack.answer.rawEventId in raws
    && raws[ack.answer.rawEventId].SameKey(ack.vendor, ack.hash)
    && ack.answer.duplicateOf == raws[ack.answer.rawEventId].duplicateOf
    && ack.answer.duplicate == ack.answer.duplicateOf.Some?
  }

  lemma {:induction false} AcksAreTruthful(cfg: Config, clock: int, acts: seq<Action>, i: nat)
    requires i < |Acks(cfg, Start(clock), acts)|
    ensures Truthful(Exec(cfg, Start(clock), acts).db.raws, Acks(cfg, Start(clock), acts)[i])
  {
    var init, act := acts[..|acts| - 1], acts[|acts| - 1];
    var s := Exec(cfg, Start(clock), init);
    Reachable(cfg, clock, init);
    if act.CommitInsert? && Enabled(cfg, s, act) {
      assert AgentOk(s.db.raws, s.agents[act.a]);
    } else if !act.CommitInsert? {
      OnlyCommitInsertAddsRows(cfg, s, act);
    }
    if i < |Acks(cfg, Start(clock), init)| {
      AcksAreTruthful(cfg, clock, init, i);
    }
  }

  /** Different committed calls answer for different rows. */
  lemma {:induction false} AckIdsDiffer(cfg: Config, clock: int, acts: seq<Action>, i: nat, j: nat)
    requires i < j < |Acks(cfg, Start(clock), acts)|
    ensures Acks(cfg, Start(clock), acts)[i].answer.rawEventId != Acks(cfg, Start(clock), acts)[j].answer.rawEventId
  {
    var init := acts[..|acts| - 1];
    if j < |Acks(cfg, Start(clock), init)| {
      AckIdsDiffer(cfg, clock, init, i, j);
    } else {
      var s := Exec(cfg, Start(clock), init);
      Reachable(cfg, clock, init);
      assert AgentOk(s.db.raws, s.agents[acts[|acts| - 1].a]);
      AcksAreTruthful(cfg, clock, init, i);
    }
  }

  /** Every committed row was answered for. */
  lemma {:induction false} RowsAreAcknowledged(cfg: Config, clock: int, acts: seq<Action>, r: RawId) returns (i: nat)
    requires r in Exec(cfg, Start(clock), acts).db.raws
    ensures i < |Acks(cfg, Start(clock), acts)| && Acks(cfg, Start(clock), acts)[i].answer.rawEventId == r
  {
    var init, act := acts[..|acts| - 1], acts[|acts| - 1];
    var s := Exec(cfg, Start(clock), init);
    if r in s.db.raws {
      i := RowsAreAcknowledged(cfg, clock, init, r);
    } else {
      Reachable(cfg, clock, init);
      assert AgentOk(s.db.raws, s.agents[act.a]);
      i := |Acks(cfg, Start(clock), init)|;
    }
  }

  /**
   * Acknowledgement agreement: among the committed calls for one key, exactly one (the i that is returned) answered
   * duplicate=False, and every other one named that call's row as the one it duplicates.
   */
  lemma AcknowledgementsAgree(cfg: Config, clock: int, acts: seq<Action>, vendor: string, hash: string, any: nat)
    returns (i: nat)
    requires any < |Acks(cfg, Start(clock), acts)|
    requires Acks(cfg, Start(clock), acts)[any].vendor == vendor && Acks(cfg, Start(clock), acts)[any].hash == hash
    ensures var acks := Acks(cfg, Start(clock), acts);
            && i < |acks| && acks[i].vendor == vendor && acks[i].hash == hash && !acks[i].answer.duplicate
            && forall j :: 0 <= j < |acks| && j != i && acks[j].vendor == vendor && acks[j].hash == hash ==>
                 acks[j].answer.duplicate && acks[j].answer.duplicateOf == Some(acks[i].answer.rawEventId)
  {
    Reachable(cfg, clock, acts);
    var raws, acks := Exec(cfg, Start(clock), acts).db.raws, Acks(cfg, Start(clock), acts);
    AcksAreTruthful(cfg, clock, acts, any);
    var row := raws[acks[any].answer.rawEventId];
    assert PointsAtPrimary(raws, row);
    var parent := if row.duplicateOf.Some? then row.duplicateOf.value else acks[any].answer.rawEventId;
    assert IsPrimary(raws, vendor, hash, parent);
    i := RowsAreAcknowledged(cfg, clock, acts, parent);
    AcksAreTruthful(cfg, clock, acts, i);
    forall j | 0 <= j < |acks| && j != i && acks[j].vendor == vendor && acks[j].hash == hash
      ensures acks[j].answer.duplicate && acks[j].answer.duplicateOf == Some(parent)
    {
      AcksAreTruthful(cfg, clock, acts, j);
      AckIdsDiffer(cfg, clock, acts, if i < j then i else j, if i < j then j else i);
      assert PointsAtPrimary(raws, raws[acks[j].answer.rawEventId]);
      assert raws[acks[j].answer.rawEventId].Primary() ==> IsPrimary(raws, vendor, hash, acks[j].answer.rawEventId);
    }
  }

  /** The steps of one whole call. */
  function InsertSteps(a: AgentId, vendor: string, hash: string, id: RawId, parent: Option<RawId>): seq<Action> {
    if parent.Some? then
      [HitConflict(a, vendor, hash), LookUpParent(a, parent.value)] + [InsertDuplicate(a, id), CommitInsert(a)]
    else [InsertPrimary(a, vendor, hash, id), CommitInsert(a)]
  }

  /** Phase 1 wins, or phase 2 finds the parent. */
  ghost predicate InsertFinds(s: Sys, vendor: string, hash: string, parent: Option<RawId>) {
    if parent.Some? then IsParent(s.db.raws, vendor, hash, parent.value)
    else !PrimaryExists(s.db.raws, vendor, hash) && !PrimaryInFlight(s.agents, vendor, hash)
  }

  lemma CommitsNew(cfg: Config, s: Sys, s1: Sys, a: AgentId)
    requires a !in s.agents && s1.agents.Keys == s.agents.Keys + {a} && s1.agents - {a} == s.agents
    requires s1.agents[a].Inserted?
    ensures Next(cfg, s1, CommitInsert(a)) == Sys(WithRow(s1, s1.agents[a].id, s1.agents[a].row), s.agents, s1.clock)
  {
  }

  lemma PrimaryIsARun(cfg: Config, s: Sys, a: AgentId, vendor: string, hash: string, id: RawId)
    requires a !in s.agents && Unused(s, id) && InsertFinds(s, vendor, hash, None)
    ensures Exec(cfg, s, InsertSteps(a, vendor, hash, id, None))
            == s.(db := s.db.(raws := Ingested(s.db.raws, vendor, hash, id, None, s.clock)))
    ensures Acks(cfg, s, InsertSteps(a, vendor, hash, id, None)) == [Ack(vendor, hash, IngestResult(id, false, None))]
  {
    var x := InsertPrimary(a, vendor, hash, id);
    var s1 := Next(cfg, s, x);
    ExecTwo(cfg, s, x, CommitInsert(a));
    assert s1.agents - {a} == s.agents;
    CommitsNew(cfg, s, s1, a);
    AcksOfTwo(cfg, s, x, CommitInsert(a));
  }

  lemma AcksOfTwo(cfg: Config, s: Sys, x: Action, y: Action)
    ensures Acks(cfg, s, [x, y]) == CommittedAck(cfg, s, x) + CommittedAck(cfg, Next(cfg, s, x), y)
  {
    assert [x, y][..1] == [x] && [x][..0] == [];
    assert Acks(cfg, s, [x]) == [] + CommittedAck(cfg, s, x);
    assert Exec(cfg, s, [x]) == Next(cfg, s, x);
  }

  lemma {:induction false} AcksConcat(cfg: Config, s: Sys, acts: seq<Action>, more: seq<Action>)
    ensures Acks(cfg, s, acts + more) == Acks(cfg, s, acts) + Acks(cfg, Exec(cfg, s, acts), more)
  {
    if more == [] {
      assert acts + more == acts;
    } else {
      assert (acts + more)[..|acts + more| - 1] == acts + more[..|more| - 1];
      AcksConcat(cfg, s, acts, more[..|more| - 1]);
      ExecConcat(cfg, s, acts, more[..|more| - 1]);
    }
  }

  lemma LookUpIsARun(cfg: Config, s: Sys, a: AgentId, vendor: string, hash: string, parent: RawId)
    requires a !in s.agents && IsParent(s.db.raws, vendor, hash, parent)
    ensures Exec(cfg, s, [HitConflict(a, vendor, hash), LookUpParent(a, parent)])
            == s.(agents := s.agents[a := Located(vendor, hash, parent)])
    ensures Acks(cfg, s, [HitConflict(a, vendor, hash), LookUpParent(a, parent)]) == []
  {
    var x, y := HitConflict(a, vendor, hash), LookUpParent(a, parent);
    ExecTwo(cfg, s, x, y);
    AcksOfTwo(cfg, s, x, y);
    assert s.agents[a := Conflicted(vendor, hash)][a := Located(vendor, hash, parent)]
           == s.agents[a := Located(vendor, hash, parent)];
  }

  lemma DuplicateIsARun(cfg: Config, s: Sys, s2: Sys, a: AgentId, vendor: string, hash: string, id: RawId,
                        parent: RawId)
    requires a !in s.agents && Unused(s, id) && s2 == s.(agents := s.agents[a := Located(vendor, hash, parent)])
    ensures Exec(cfg, s2, [InsertDuplicate(a, id), CommitInsert(a)])
            == s.(db := s.db.(raws := Ingested(s.db.raws, vendor, hash, id, Some(parent), s.clock)))
    ensures Acks(cfg, s2, [InsertDuplicate(a, id), CommitInsert(a)])
            == [Ack(vendor, hash, IngestResult(id, true, Some(parent)))]
  {
    var s3 := Next(cfg, s2, InsertDuplicate(a, id));
    ExecTwo(cfg, s2, InsertDuplicate(a, id), CommitInsert(a));
    assert s3.agents - {a} == s.agents;
    CommitsNew(cfg, s, s3, a);
    AcksOfTwo(cfg, s2, InsertDuplicate(a, id), CommitInsert(a));
  }

  /** insert_raw_event with nothing in between is the run through its phases, and answers accordingly. */
  lemma InsertIsARun(cfg: Config, s: Sys, a: AgentId, vendor: string, hash: string, id: RawId, parent: Option<RawId>)
    requires a !in s.agents && Unused(s, id) && InsertFinds(s, vendor, hash, parent)
    ensures Exec(cfg, s, InsertSteps(a, vendor, hash, id, parent))
            == s.(db := s.db.(raws := Ingested(s.db.raws, vendor, hash, id, parent, s.clock)))
    ensures Acks(cfg, s, InsertSteps(a, vendor, hash, id, parent))
            == [Ack(vendor, hash, IngestResult(id, parent.Some?, parent))]
  {
    if parent.None? {
      PrimaryIsARun(cfg, s, a, vendor, hash, id);
    } else {
      var first := [HitConflict(a, vendor, hash), LookUpParent(a, parent.value)];
      LookUpIsARun(cfg, s, a, vendor, hash, parent.value);
      DuplicateIsARun(cfg, s, Exec(cfg, s, first), a, vendor, hash, id, parent.value);
      ExecConcat(cfg, s, first, [InsertDuplicate(a, id), CommitInsert(a)]);
      AcksConcat(cfg, s, first, [InsertDuplicate(a, id), CommitInsert(a)]);
    }
  }
}
