/** At-least-once processing refines exactly-once processing, run against run. */
module ExactlyOnce {
  import opened Events
  import opened Tables
  import opened Normalization
  import opened History
  import opened Replay
  import opened Queue
  import opened Ingestion
  import opened Pipeline
  import opened Safety
  import opened Runs

  /** One agent inserts, claims and persists the raw row of p, once and without a failure. */
  function OnceSteps(raws: map<RawId, RawRow>, p: Persisted): seq<Action>
    requires p.raw in raws
  {
    [InsertPrimary(0, p.vendor, raws[p.raw].hashExact, p.raw), CommitInsert(0),
     SelectClaim(0, p.raw), CommitClaim(0), PersistEvent(0, p.event)]
  }

  function OnceRun(raws: map<RawId, RawRow>, ps: seq<Persisted>): seq<Action>
    requires forall i :: 0 <= i < |ps| ==> ps[i].raw in raws
  {
    if ps == [] then [] else OnceRun(raws, ps[..|ps| - 1]) + OnceSteps(raws, ps[|ps| - 1])
  }

  /** All rows of a run in progress are processed primaries with the keys they have in `raws`. */
  ghost predicate Settled(raws: map<RawId, RawRow>, s: Sys, ps: seq<Persisted>, clock: int) {
    && s.agents == map[] && s.clock == clock
    && forall r :: r in s.db.raws ==>
         r in raws && Mentions(ps, r) && s.db.raws[r].status == Processed && raws[r].Primary()
         && s.db.raws[r].SameKey(raws[r].vendorHint, raws[r].hashExact)
  }

  lemma ExecOneMore(cfg: Config, s: Sys, acts: seq<Action>, i: nat)
    requires i < |acts|
    ensures Exec(cfg, s, acts[..i + 1]) == Next(cfg, Exec(cfg, s, acts[..i]), acts[i])
  {
    assert acts[..i + 1][..i] == acts[..i];
  }

  lemma ExecFive(cfg: Config, s: Sys, acts: seq<Action>)
    requires |acts| == 5
    ensures Exec(cfg, s, acts[..2]) == Next(cfg, Next(cfg, s, acts[0]), acts[1])
    ensures Exec(cfg, s, acts[..4]) == Next(cfg, Next(cfg, Exec(cfg, s, acts[..2]), acts[2]), acts[3])
    ensures Exec(cfg, s, acts) == Next(cfg, Exec(cfg, s, acts[..4]), acts[4])
  {
    ExecOneMore(cfg, s, acts, 0);
    ExecOneMore(cfg, s, acts, 1);
    ExecOneMore(cfg, s, acts, 2);
    ExecOneMore(cfg, s, acts, 3);
    ExecOneMore(cfg, s, acts, 4);
    assert acts[..5] == acts;
  }

  /** The insert of the first two steps. */
  lemma OnceInserts(cfg: Config, raws: map<RawId, RawRow>, s: Sys, earlier: seq<Persisted>, p: Persisted, clock: int)
    requires StarForest(raws) && Settled(raws, s, earlier, clock) && FromPrimary(raws, p) && !Mentions(earlier, p.raw)
    ensures var acts := OnceSteps(raws, p);
            Next(cfg, Next(cfg, s, acts[0]), acts[1])
            == s.(db := s.db.(raws := s.db.raws[p.raw := NewPrimary(p.vendor, raws[p.raw].hashExact, clock)]))
  {
    var hash := raws[p.raw].hashExact;
    forall r | IsPrimary(s.db.raws, p.vendor, hash, r)
      ensures false
    {
      assert IsPrimary(raws, p.vendor, hash, r) && IsPrimary(raws, p.vendor, hash, p.raw);
    }
    assert Enabled(cfg, s, InsertPrimary(0, p.vendor, hash, p.raw));
    var s1 := Next(cfg, s, InsertPrimary(0, p.vendor, hash, p.raw));
    assert s1.agents[0].Inserted?;
    assert s1.agents - {0} == map[];
  }

  /** The claim and the persist of the last three steps. */
  lemma OncePersists(cfg: Config, s: Sys, p: Persisted)
    requires s.agents == map[] && p.raw in s.db.raws && s.db.raws[p.raw].status == Pending
    requires forall r :: r in s.db.raws && r != p.raw ==> s.db.raws[r].status != Pending
    ensures var s3 := Next(cfg, Next(cfg, s, SelectClaim(0, p.raw)), CommitClaim(0));
            && HoldsFree(s3, 0) && s3.agents[0].raw == p.raw && s3.clock == s.clock
            && s3.db == s.db.(raws := s.db.raws[p.raw := Claimed(s.db.raws[p.raw], s.clock)])
            && Next(cfg, s3, PersistEvent(0, p.event)) ==
                 s.(db := Persist(s3.db, p.raw, p.event, s.clock, cfg.keepUnclassified))
  {
    assert Locked(s.agents) == {};
    assert Oldest(s.db.raws, {}, p.raw);
    var s2 := Next(cfg, s, SelectClaim(0, p.raw));
    assert s2.agents[0] == Claiming(p.raw, s.clock);
    var s3 := Next(cfg, s2, CommitClaim(0));
    assert s3.agents == map[0 := Working(p.raw, s.clock)];
    assert Locked(s3.agents) == {};
    assert s3.agents - {0} == map[];
  }

  /** The row of p after its claim. */
  function OnceClaimed(raws: map<RawId, RawRow>, db: Db, p: Persisted, clock: int): Db
    requires p.raw in raws
  {
    db.(raws := db.raws[p.raw := Claimed(NewPrimary(p.vendor, raws[p.raw].hashExact, clock), clock)])
  }

  /** The state after one round of five steps, and what the last of them commits. */
  lemma OnceEnds(cfg: Config, raws: map<RawId, RawRow>, s: Sys, earlier: seq<Persisted>, p: Persisted, clock: int)
    requires StarForest(raws) && Settled(raws, s, earlier, clock) && FromPrimary(raws, p) && !Mentions(earlier, p.raw)
    ensures var acts := OnceSteps(raws, p);
            && Exec(cfg, s, acts)
                 == s.(db := Persist(OnceClaimed(raws, s.db, p, clock), p.raw, p.event, clock, cfg.keepUnclassified))
            && Committed(cfg, Exec(cfg, s, acts[..4]), acts[4]) == [p.(now := clock)]
  {
    var acts := OnceSteps(raws, p);
    ExecFive(cfg, s, acts);
    OnceInserts(cfg, raws, s, earlier, p, clock);
    var s2 := s.(db := s.db.(raws := s.db.raws[p.raw := NewPrimary(p.vendor, raws[p.raw].hashExact, clock)]));
    assert Exec(cfg, s, acts[..2]) == s2;
    OncePersists(cfg, s2, p);
    assert s2.db.raws[p.raw := Claimed(s2.db.raws[p.raw], clock)] == OnceClaimed(raws, s.db, p, clock).raws;
  }

  /** One round adds the row, processed, and commits the one persist. */
  lemma OnceRound(cfg: Config, raws: map<RawId, RawRow>, s: Sys, earlier: seq<Persisted>, p: Persisted, clock: int)
    requires StarForest(raws) && Settled(raws, s, earlier, clock) && FromPrimary(raws, p) && !Mentions(earlier, p.raw)
    ensures Settled(raws, Exec(cfg, s, OnceSteps(raws, p)), earlier + [p], clock)
    ensures Trace(cfg, s, OnceSteps(raws, p)) == [p.(now := clock)]
  {
    OnceEnds(cfg, raws, s, earlier, p, clock);
    OnceTrace(cfg, s, OnceSteps(raws, p));
    forall r | Mentions(earlier, r) || r == p.raw
      ensures Mentions(earlier + [p], r)
    {
      if r == p.raw {
        assert (earlier + [p])[|earlier|].raw == r;
      } else {
        var i :| 0 <= i < |earlier| && earlier[i].raw == r;
        assert (earlier + [p])[i].raw == r;
      }
    }
  }

  lemma OnceTrace(cfg: Config, s: Sys, acts: seq<Action>)
    requires |acts| == 5 && acts[4].PersistEvent?
    requires forall i :: 0 <= i < 4 ==> !acts[i].PersistEvent?
    ensures Trace(cfg, s, acts) == Committed(cfg, Exec(cfg, s, acts[..4]), acts[4])
  {
    assert Trace(cfg, s, acts[..0]) == [];
    assert acts[..5] == acts;
    NoPersists(cfg, s, acts[..4]);
  }

  lemma {:induction false} NoPersists(cfg: Config, s: Sys, acts: seq<Action>)
    requires forall i :: 0 <= i < |acts| ==> !acts[i].PersistEvent?
    ensures Trace(cfg, s, acts) == []
  {
    if acts == [] {
    } else {
      NoPersists(cfg, s, acts[..|acts| - 1]);
      assert !acts[|acts| - 1].PersistEvent?;
    }
  }

  /** qs brings the events of ps, at its own times. */
  ghost predicate Retimed(ps: seq<Persisted>, qs: seq<Persisted>) {
    |ps| == |qs| && forall i :: 0 <= i < |ps| ==> qs[i] == ps[i].(now := qs[i].now)
  }

  lemma {:induction false} OnceRunTrace(cfg: Config, clock: int, raws: map<RawId, RawRow>, ps: seq<Persisted>)
    requires StarForest(raws) && DistinctRaws(ps)
    requires forall i :: 0 <= i < |ps| ==> ps[i].raw in raws && FromPrimary(raws, ps[i])
    ensures Settled(raws, Exec(cfg, Start(clock), OnceRun(raws, ps)), ps, clock)
    ensures Retimed(ps, Trace(cfg, Start(clock), OnceRun(raws, ps)))
  {
    if ps == [] {
    } else {
      var earlier, p := ps[..|ps| - 1], ps[|ps| - 1];
      assert ps == earlier + [p];
      OnceRunTrace(cfg, clock, raws, earlier);
      var s := Exec(cfg, Start(clock), OnceRun(raws, earlier));
      OnceRound(cfg, raws, s, earlier, p, clock);
      ExecConcat(cfg, Start(clock), OnceRun(raws, earlier), OnceSteps(raws, p));
      TraceConcat(cfg, Start(clock), OnceRun(raws, earlier), OnceSteps(raws, p));
    }
  }

  lemma {:induction false} RetimedReplay(kind: Kind, ps: seq<Persisted>, qs: seq<Persisted>)
    requires Retimed(ps, qs)
    ensures SameStore(Replayed(EMPTY_STORE, kind, ps), Replayed(EMPTY_STORE, kind, qs))
  {
    if ps == [] {
    } else {
      var n := |ps| - 1;
      RetimedReplay(kind, ps[..n], qs[..n]);
      if ps[n].For(kind) {
        RecordRespectsSameStore(Replayed(EMPTY_STORE, kind, ps[..n]), Replayed(EMPTY_STORE, kind, qs[..n]),
                                ps[n].Row(), ps[n].now, qs[n].now);
      }
    }
  }

  lemma {:induction false} FirstsAreSome(ps: seq<Persisted>, i: nat)
    requires i < |Firsts(ps)|
    ensures Firsts(ps)[i] in ps
  {
    var n := |ps| - 1;
    if i < |Firsts(ps[..n])| {
      FirstsAreSome(ps[..n], i);
    }
  }

  /**
   * At-least-once refines exactly-once: under DET, whatever a run did, some run of the same system without crashes,
   * failures, reaps or retries, which persists every raw row at most once, ends with the same entity and event tables.
   */
  lemma AtLeastOnceRefinesExactlyOnce(cfg: Config, clock: int, acts: seq<Action>) returns (once: seq<Action>)
    requires DetRun(cfg, Start(clock), acts)
    ensures DistinctRaws(Trace(cfg, Start(clock), once))
    ensures forall i :: 0 <= i < |once| ==>
              once[i].InsertPrimary? || once[i].CommitInsert? || once[i].SelectClaim? || once[i].CommitClaim?
              || once[i].PersistEvent?
    ensures forall kind :: SameStore(Exec(cfg, Start(clock), acts).db.StoreOf(kind),
                                     Exec(cfg, Start(clock), once).db.StoreOf(kind))
  {
    var raws, ps := Exec(cfg, Start(clock), acts).db.raws, Firsts(Trace(cfg, Start(clock), acts));
    Reachable(cfg, clock, acts);
    TraceFromPrimaries(cfg, clock, acts);
    forall i | 0 <= i < |ps|
      ensures FromPrimary(raws, ps[i])
    {
      FirstsAreSome(Trace(cfg, Start(clock), acts), i);
    }
    once := OnceRun(raws, ps);
    OnceRunTrace(cfg, clock, raws, ps);
    OnceRunActions(raws, ps);
    forall kind
      ensures SameStore(Exec(cfg, Start(clock), acts).db.StoreOf(kind), Exec(cfg, Start(clock), once).db.StoreOf(kind))
    {
      RunsAreExactlyOnce(cfg, clock, acts, kind);
      TablesAreReplay(cfg, Start(clock), once, kind);
      RetimedReplay(kind, ps, Trace(cfg, Start(clock), once));
    }
  }

  lemma {:induction false} OnceRunActions(raws: map<RawId, RawRow>, ps: seq<Persisted>)
    requires forall i :: 0 <= i < |ps| ==> ps[i].raw in raws
    ensures forall i :: 0 <= i < |OnceRun(raws, ps)| ==>
              || OnceRun(raws, ps)[i].InsertPrimary? || OnceRun(raws, ps)[i].CommitInsert?
              || OnceRun(raws, ps)[i].SelectClaim?
              || OnceRun(raws, ps)[i].CommitClaim? || OnceRun(raws, ps)[i].PersistEvent?
  {
    if ps == [] {
    } else {
      OnceRunActions(raws, ps[..|ps| - 1]);
    }
  }
}
