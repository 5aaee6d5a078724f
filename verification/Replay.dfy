/** What a list of committed persists leaves in the entity and event tables. */
module Replay {
  import opened Events
  import opened Tables
  import opened Normalization
  import opened History

  /** The store of one kind after the persists `ps`, in commit order. */
  function Replayed(st: Store, kind: Kind, ps: seq<Persisted>): Store {
    if ps == [] then st
    else Put(Replayed(st, kind, ps[..|ps| - 1]), kind, ps[|ps| - 1])
  }

  lemma {:induction false} ReplayedConcat(st: Store, kind: Kind, ps: seq<Persisted>, qs: seq<Persisted>)
    ensures Replayed(st, kind, ps + qs) == Replayed(Replayed(st, kind, ps), kind, qs)
  {
    if qs == [] {
      assert ps + qs == ps;
    } else {
      assert (ps + qs)[..|ps + qs| - 1] == ps + qs[..|qs| - 1];
      ReplayedConcat(st, kind, ps, qs[..|qs| - 1]);
    }
  }

  /**
   * Never roll back, for an arbitrary classifier: over any list of persists an entity's last_event_at is set, is at
   * least every event_at of its history and never decreases, and its state and attributes change only with it.
   */
  lemma {:induction false} NeverRollsBack(st: Store, kind: Kind, ps: seq<Persisted>)
    requires Anchored(st)
    ensures Anchored(Replayed(st, kind, ps))
    ensures NeverRolledBack(st, Replayed(st, kind, ps))
  {
    if ps == [] {
    } else {
      var p := ps[|ps| - 1];
      var mid := Replayed(st, kind, ps[..|ps| - 1]);
      NeverRollsBack(st, kind, ps[..|ps| - 1]);
      if p.For(kind) {
        RecordNeverRollsBack(mid, p.Row(), p.now);
      }
    }
  }

  /** Inserted history rows are never changed or removed, and there is at most one per raw row. */
  lemma {:induction false} HistoryOnlyGrows(st: Store, kind: Kind, ps: seq<Persisted>)
    requires UniqueRaws(st.events)
    ensures UniqueRaws(Replayed(st, kind, ps).events)
    ensures st.events <= Replayed(st, kind, ps).events
  {
    if ps == [] {
    } else {
      var p := ps[|ps| - 1];
      HistoryOnlyGrows(st, kind, ps[..|ps| - 1]);
      if p.For(kind) {
        RecordKeepsUniqueRaws(Replayed(st, kind, ps[..|ps| - 1]), p.Row(), p.now);
      }
    }
  }

  /** Some persist of `ps` brought the row. */
  ghost predicate BroughtBy(row: EventRow, kind: Kind, ps: seq<Persisted>) {
    exists i :: 0 <= i < |ps| && ps[i].For(kind) && ps[i].Row() == row
  }

  lemma BroughtByLonger(row: EventRow, kind: Kind, ps: seq<Persisted>)
    requires ps != [] && BroughtBy(row, kind, ps[..|ps| - 1])
    ensures BroughtBy(row, kind, ps)
  {
    var i :| 0 <= i < |ps| - 1 && ps[i].For(kind) && ps[i].Row() == row;
    assert ps[i].For(kind) && ps[i].Row() == row;
  }

  /** Every history row was brought by a persist. */
  lemma {:induction false} HistoryWasPersisted(kind: Kind, ps: seq<Persisted>, k: nat)
    requires k < |Replayed(EMPTY_STORE, kind, ps).events|
    ensures BroughtBy(Replayed(EMPTY_STORE, kind, ps).events[k], kind, ps)
  {
    var n := |ps| - 1;
    var st := Replayed(EMPTY_STORE, kind, ps[..n]);
    if k < |st.events| {
      HistoryWasPersisted(kind, ps[..n], k);
      BroughtByLonger(st.events[k], kind, ps);
    } else {
      assert ps[n].For(kind) && ps[n].Row() == Replayed(EMPTY_STORE, kind, ps).events[k];
    }
  }

  lemma PutRecords(st: Store, kind: Kind, p: Persisted)
    ensures st.events <= Put(st, kind, p).events
    ensures p.For(kind) ==> Recorded(Put(st, kind, p).events, p.raw)
  {
    var st' := Put(st, kind, p);
    if p.For(kind) && !Recorded(st.events, p.raw) {
      assert st'.events[|st.events|].rawId == p.raw;
    }
  }

  /** Every persisted raw row has a history row in the table of its kind. */
  lemma {:induction false} PersistedIsInHistory(st: Store, kind: Kind, ps: seq<Persisted>, i: nat)
    requires i < |ps| && ps[i].For(kind)
    ensures Recorded(Replayed(st, kind, ps).events, ps[i].raw)
  {
    var n := |ps| - 1;
    var mid := Replayed(st, kind, ps[..n]);
    PutRecords(mid, kind, ps[n]);
    if i < n {
      PersistedIsInHistory(st, kind, ps[..n], i);
      var k :| 0 <= k < |mid.events| && mid.events[k].rawId == ps[i].raw;
      assert Put(mid, kind, ps[n]).events[k] == mid.events[k];
    }
  }

  /** DET: all persists of one raw row bring the same event for the same vendor. */
  ghost predicate Deterministic(ps: seq<Persisted>) {
    forall i, j :: 0 <= i < |ps| && 0 <= j < |ps| && ps[i].raw == ps[j].raw ==>
      ps[i].event == ps[j].event && ps[i].vendor == ps[j].vendor
  }

  /** Every earlier persist of the same raw row brought what `p` brings. */
  ghost predicate Repeats(earlier: seq<Persisted>, p: Persisted) {
    forall i :: 0 <= i < |earlier| && earlier[i].raw == p.raw ==>
      earlier[i].event == p.event && earlier[i].vendor == p.vendor
  }

  /** Under DET a repeated persist finds its own row in the history, so it brings nothing newer. */
  lemma RepeatedRowIsHistory(kind: Kind, earlier: seq<Persisted>, p: Persisted)
    requires Repeats(earlier, p) && p.For(kind) && CacheAgrees(Replayed(EMPTY_STORE, kind, earlier))
    requires Recorded(Replayed(EMPTY_STORE, kind, earlier).events, p.raw)
    ensures p.Row().key in Replayed(EMPTY_STORE, kind, earlier).entities
    ensures !Newer(Replayed(EMPTY_STORE, kind, earlier).entities[p.Row().key], p.Row())
  {
    var st := Replayed(EMPTY_STORE, kind, earlier);
    var k :| 0 <= k < |st.events| && st.events[k].rawId == p.raw;
    HistoryWasPersisted(kind, earlier, k);
    var i :| 0 <= i < |earlier| && earlier[i].For(kind) && earlier[i].Row() == st.events[k];
    assert earlier[i].Row() == p.Row();
    HistoryRowNotNewer(st, k);
  }

  /** Under DET the cache agrees with the history after any list of persists, repeated or not. */
  lemma {:induction false} CacheAgreesUnderDet(kind: Kind, ps: seq<Persisted>)
    requires Deterministic(ps)
    ensures CacheAgrees(Replayed(EMPTY_STORE, kind, ps))
  {
    if ps == [] {
    } else {
      var earlier, p := ps[..|ps| - 1], ps[|ps| - 1];
      CacheAgreesUnderDet(kind, earlier);
      var st := Replayed(EMPTY_STORE, kind, earlier);
      if p.For(kind) {
        if Recorded(st.events, p.raw) {
          RepeatedRowIsHistory(kind, earlier, p);
        }
        AgreementKeptIff(st, p.Row(), p.now);
      }
    }
  }

  predicate Mentions(ps: seq<Persisted>, raw: RawId) {
    exists i :: 0 <= i < |ps| && ps[i].raw == raw
  }

  /** The exactly-once list: only the first persist of each raw row. */
  function Firsts(ps: seq<Persisted>): (qs: seq<Persisted>)
    ensures forall raw :: Mentions(qs, raw) <==> Mentions(ps, raw)
    ensures forall i, j :: 0 <= i < j < |qs| ==> qs[i].raw != qs[j].raw
  {
    if ps == [] then []
    else
      var n := |ps| - 1;
      var qs := Firsts(ps[..n]);
      assert forall raw :: Mentions(ps, raw) <==> Mentions(ps[..n], raw) || ps[n].raw == raw by {
        forall raw
          ensures Mentions(ps, raw) <==> Mentions(ps[..n], raw) || ps[n].raw == raw
        {
          if Mentions(ps[..n], raw) {
            var i :| 0 <= i < n && ps[..n][i].raw == raw;
            assert ps[i].raw == raw;
          }
          if Mentions(ps, raw) && ps[n].raw != raw {
            var i :| 0 <= i < |ps| && ps[i].raw == raw;
            assert ps[..n][i].raw == raw;
          }
        }
      }
      if Mentions(ps[..n], ps[n].raw) then qs
      else
        assert forall raw :: Mentions(qs + [ps[n]], raw) <==> Mentions(qs, raw) || ps[n].raw == raw by {
          forall raw
            ensures Mentions(qs + [ps[n]], raw) <==> Mentions(qs, raw) || ps[n].raw == raw
          {
            if Mentions(qs, raw) {
              var i :| 0 <= i < |qs| && qs[i].raw == raw;
              assert (qs + [ps[n]])[i].raw == raw;
            }
            if ps[n].raw == raw {
              assert (qs + [ps[n]])[|qs|].raw == raw;
            }
          }
        }
        qs + [ps[n]]
  }

  lemma FirstPersistOnBothSides(kind: Kind, earlier: seq<Persisted>, p: Persisted)
    requires !Mentions(earlier, p.raw)
    requires SameStore(Replayed(EMPTY_STORE, kind, earlier), Replayed(EMPTY_STORE, kind, Firsts(earlier)))
    ensures Firsts(earlier + [p]) == Firsts(earlier) + [p]
    ensures SameStore(Put(Replayed(EMPTY_STORE, kind, earlier), kind, p),
                      Put(Replayed(EMPTY_STORE, kind, Firsts(earlier)), kind, p))
  {
    assert (earlier + [p])[..|earlier|] == earlier;
    if p.For(kind) {
      RecordRespectsSameStore(Replayed(EMPTY_STORE, kind, earlier), Replayed(EMPTY_STORE, kind, Firsts(earlier)),
                              p.Row(), p.now, p.now);
    }
  }

  lemma StaleRecordIsSame(st: Store, row: EventRow, now: int)
    requires CacheAgrees(st) && Recorded(st.events, row.rawId)
    requires row.key in st.entities && !Newer(st.entities[row.key], row)
    ensures SameStore(Record(st, row, now), st)
  {
    StaleRecordAgrees(st, row, now);
  }

  lemma RepeatIsRecorded(kind: Kind, earlier: seq<Persisted>, p: Persisted)
    requires Mentions(earlier, p.raw) && Repeats(earlier, p) && p.For(kind)
    ensures Recorded(Replayed(EMPTY_STORE, kind, earlier).events, p.raw)
  {
    var i :| 0 <= i < |earlier| && earlier[i].raw == p.raw;
    assert earlier[i].For(kind);
    PersistedIsInHistory(EMPTY_STORE, kind, earlier, i);
  }

  lemma RepeatChangesNothing(kind: Kind, earlier: seq<Persisted>, p: Persisted)
    requires Mentions(earlier, p.raw) && Repeats(earlier, p) && CacheAgrees(Replayed(EMPTY_STORE, kind, earlier))
    ensures SameStore(Put(Replayed(EMPTY_STORE, kind, earlier), kind, p), Replayed(EMPTY_STORE, kind, earlier))
  {
    if p.For(kind) {
      RepeatIsRecorded(kind, earlier, p);
      RepeatedRowIsHistory(kind, earlier, p);
      StaleRecordIsSame(Replayed(EMPTY_STORE, kind, earlier), p.Row(), p.now);
    }
  }

  /** At-least-once processing gives the tables of exactly-once processing, up to updated_at. */
  lemma {:induction false} AtLeastOnceIsExactlyOnce(kind: Kind, ps: seq<Persisted>)
    requires Deterministic(ps)
    ensures SameStore(Replayed(EMPTY_STORE, kind, ps), Replayed(EMPTY_STORE, kind, Firsts(ps)))
  {
    if ps == [] {
    } else {
      var earlier, p := ps[..|ps| - 1], ps[|ps| - 1];
      assert ps == earlier + [p];
      AtLeastOnceIsExactlyOnce(kind, earlier);
      CacheAgreesUnderDet(kind, earlier);
      if Mentions(earlier, p.raw) {
        RepeatChangesNothing(kind, earlier, p);
      } else {
        FirstPersistOnBothSides(kind, earlier, p);
        assert (Firsts(earlier) + [p])[..|Firsts(earlier) + [p]| - 1] == Firsts(earlier);
      }
    }
  }

  /** The history rows that a list of persists brings to one table. */
  function Rows(kind: Kind, ps: seq<Persisted>): seq<EventRow> {
    if ps == [] then [] else Rows(kind, ps[..|ps| - 1]) + RowsOfOne(kind, ps[|ps| - 1])
  }

  function RowsOfOne(kind: Kind, p: Persisted): seq<EventRow> {
    if p.For(kind) then [p.Row()] else []
  }

  ghost predicate DistinctRaws(ps: seq<Persisted>) {
    forall i, j :: 0 <= i < j < |ps| ==> ps[i].raw != ps[j].raw
  }

  ghost predicate NoneRecorded(events: seq<EventRow>, ps: seq<Persisted>) {
    forall i :: 0 <= i < |ps| ==> !Recorded(events, ps[i].raw)
  }

  lemma {:induction false} RowsArePersisted(kind: Kind, ps: seq<Persisted>, k: nat)
    requires k < |Rows(kind, ps)|
    ensures Mentions(ps, Rows(kind, ps)[k].rawId)
  {
    var earlier, p := ps[..|ps| - 1], ps[|ps| - 1];
    if k < |Rows(kind, earlier)| {
      RowsArePersisted(kind, earlier, k);
      var i :| 0 <= i < |earlier| && earlier[i].raw == Rows(kind, ps)[k].rawId;
      assert ps[i] == earlier[i];
    }
  }

  lemma StillFresh(events: seq<EventRow>, kind: Kind, earlier: seq<Persisted>, raw: RawId)
    requires !Recorded(events, raw) && !Mentions(earlier, raw)
    ensures !Recorded(events + Rows(kind, earlier), raw)
  {
    forall k | 0 <= k < |Rows(kind, earlier)|
      ensures Rows(kind, earlier)[k].rawId != raw
    {
      RowsArePersisted(kind, earlier, k);
    }
  }

  /** A persist of a new raw row appends its history row and keeps the agreement. */
  lemma FreshPut(st: Store, kind: Kind, p: Persisted)
    requires CacheAgrees(st) && !Recorded(st.events, p.raw)
    ensures Put(st, kind, p).events == st.events + RowsOfOne(kind, p)
    ensures CacheAgrees(Put(st, kind, p))
  {
    if p.For(kind) {
      FreshRecordAgrees(st, p.Row(), p.now);
    }
  }

  /** Persists of new raw rows append their history rows and keep the agreement. */
  lemma {:induction false} FreshReplay(st: Store, kind: Kind, ps: seq<Persisted>)
    requires CacheAgrees(st) && DistinctRaws(ps) && NoneRecorded(st.events, ps)
    ensures Replayed(st, kind, ps).events == st.events + Rows(kind, ps)
    ensures CacheAgrees(Replayed(st, kind, ps))
  {
    if ps == [] {
    } else {
      var earlier, p := ps[..|ps| - 1], ps[|ps| - 1];
      FreshReplay(st, kind, earlier);
      StillFresh(st.events, kind, earlier, p.raw);
      FreshPut(Replayed(st, kind, earlier), kind, p);
    }
  }

  lemma {:induction false} RowsConcat(kind: Kind, ps: seq<Persisted>, qs: seq<Persisted>)
    ensures Rows(kind, ps + qs) == Rows(kind, ps) + Rows(kind, qs)
  {
    if qs == [] {
      assert ps + qs == ps;
    } else {
      assert (ps + qs)[..|ps + qs| - 1] == ps + qs[..|qs| - 1];
      RowsConcat(kind, ps, qs[..|qs| - 1]);
    }
  }

  lemma BagWithout(qs: seq<Persisted>, j: nat)
    requires j < |qs|
    ensures qs == qs[..j] + [qs[j]] + qs[j + 1..]
    ensures multiset(qs) == multiset(qs[..j] + qs[j + 1..]) + multiset{qs[j]}
  {
    assert qs == qs[..j] + [qs[j]] + qs[j + 1..];
  }

  lemma LastOfPermutation(ps: seq<Persisted>, qs: seq<Persisted>) returns (j: nat)
    requires multiset(ps) == multiset(qs) && ps != []
    ensures j < |qs| && qs[j] == ps[|ps| - 1]
    ensures multiset(ps[..|ps| - 1]) == multiset(qs[..j] + qs[j + 1..])
  {
    var n := |ps| - 1;
    BagWithout(ps, n);
    assert ps[..n] + ps[n + 1..] == ps[..n];
    assert ps[n] in multiset(qs);
    j :| 0 <= j < |qs| && qs[j] == ps[n];
    BagWithout(qs, j);
    BagCancel(multiset(ps[..n]), multiset(qs[..j] + qs[j + 1..]), multiset{ps[n]});
  }

  lemma BagCancel(a: multiset<Persisted>, b: multiset<Persisted>, c: multiset<Persisted>)
    requires a + c == b + c
    ensures a == b
  {
    assert a == (a + c) - c;
    assert b == (b + c) - c;
  }

  lemma RowsSnoc(kind: Kind, ps: seq<Persisted>)
    requires ps != []
    ensures multiset(Rows(kind, ps))
            == multiset(Rows(kind, ps[..|ps| - 1])) + multiset(RowsOfOne(kind, ps[|ps| - 1]))
  {
  }

  lemma RowsOfConcat(kind: Kind, x: seq<Persisted>, y: seq<Persisted>, xy: seq<Persisted>)
    requires xy == x + y
    ensures multiset(Rows(kind, xy)) == multiset(Rows(kind, x)) + multiset(Rows(kind, y))
  {
    RowsConcat(kind, x, y);
  }

  lemma RowsOfMiddle(kind: Kind, x: seq<Persisted>, p: Persisted, y: seq<Persisted>, qs: seq<Persisted>)
    requires qs == x + [p] + y
    ensures multiset(Rows(kind, qs)) == multiset(Rows(kind, x)) + multiset(RowsOfOne(kind, p)) + multiset(Rows(kind, y))
  {
    RowsOfConcat(kind, x + [p], y, qs);
    RowsSnoc(kind, x + [p]);
    assert (x + [p])[..|x|] == x;
  }

  /** Taking one persist out of a list takes its row out of the bag. */
  lemma RowsAt(kind: Kind, qs: seq<Persisted>, j: nat)
    requires j < |qs|
    ensures multiset(Rows(kind, qs)) == multiset(Rows(kind, qs[..j] + qs[j + 1..])) + multiset(RowsOfOne(kind, qs[j]))
  {
    RowsOfMiddle(kind, qs[..j], qs[j], qs[j + 1..], qs);
    RowsOfConcat(kind, qs[..j], qs[j + 1..], qs[..j] + qs[j + 1..]);
  }

  lemma EmptyBag(qs: seq<Persisted>)
    requires multiset(qs) == multiset([])
    ensures qs == []
  {
    assert |multiset(qs)| == 0;
  }

  /** A permutation of a list of persists brings the same bag of history rows. */
  lemma {:induction false} RowsOfPermutation(kind: Kind, ps: seq<Persisted>, qs: seq<Persisted>)
    requires multiset(ps) == multiset(qs)
    ensures multiset(Rows(kind, ps)) == multiset(Rows(kind, qs))
  {
    if ps == [] {
      EmptyBag(qs);
    } else {
      var j := LastOfPermutation(ps, qs);
      RowsOfPermutation(kind, ps[..|ps| - 1], qs[..j] + qs[j + 1..]);
      RowsSnoc(kind, ps);
      RowsAt(kind, qs, j);
    }
  }

  lemma DistinctRawsInserted(x: seq<Persisted>, p: Persisted, y: seq<Persisted>)
    requires DistinctRaws(x + y) && forall q :: q in x + y ==> q.raw != p.raw
    ensures DistinctRaws(x + [p] + y)
  {
    var rest, qs := x + y, x + [p] + y;
    assert forall i :: 0 <= i < |x| ==> qs[i] == rest[i];
    assert forall i :: |x| < i < |qs| ==> qs[i] == rest[i - 1];
  }

  lemma {:induction false} DistinctRawsOfPermutation(ps: seq<Persisted>, qs: seq<Persisted>)
    requires multiset(ps) == multiset(qs) && DistinctRaws(ps)
    ensures DistinctRaws(qs)
  {
    if ps == [] {
      EmptyBag(qs);
    } else {
      var n := |ps| - 1;
      var j := LastOfPermutation(ps, qs);
      var rest := qs[..j] + qs[j + 1..];
      DistinctRawsOfPermutation(ps[..n], rest);
      forall q | q in rest
        ensures q.raw != ps[n].raw
      {
        assert q in multiset(ps[..n]);
      }
      DistinctRawsInserted(qs[..j], ps[n], qs[j + 1..]);
      assert qs == qs[..j] + [ps[n]] + qs[j + 1..];
    }
  }

  /**
   * Order independence: persists of distinct new raw rows, no two events of one entity at the same time, give the same
   * entities (up to updated_at) and the same bag of history rows in whatever order they are committed.
   */
  lemma OrderIndependence(st: Store, kind: Kind, ps: seq<Persisted>, qs: seq<Persisted>)
    requires CacheAgrees(st) && multiset(ps) == multiset(qs)
    requires DistinctRaws(ps) && NoneRecorded(st.events, ps)
    requires DistinctTimes(st.events + Rows(kind, ps))
    ensures multiset(Replayed(st, kind, ps).events) == multiset(Replayed(st, kind, qs).events)
    ensures SameEntities(Replayed(st, kind, ps).entities, Replayed(st, kind, qs).entities)
  {
    RowsOfPermutation(kind, ps, qs);
    DistinctRawsOfPermutation(ps, qs);
    forall i | 0 <= i < |qs|
      ensures !Recorded(st.events, qs[i].raw)
    {
      assert qs[i] in multiset(ps);
    }
    FreshReplay(st, kind, ps);
    FreshReplay(st, kind, qs);
    HistoryDeterminesEntities(Replayed(st, kind, ps), Replayed(st, kind, qs));
  }
}
