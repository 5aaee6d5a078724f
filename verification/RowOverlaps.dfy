/**
 * One raw row at statement granularity. A persist, a mark_failed and the failure record of a manual retry read the row
 * without a lock and write it back in a later statement; a claim, a reap and the acquisition of a manual retry read it
 * under its lock, so each is one step.
 */
module RowOverlaps {
  import opened Options
  import opened Events
  import opened Tables
  import opened Normalization
  import opened Queue
  import opened Prefixes

  type TxId = nat

  datatype Call =
    | PersistCall(event: NormalizedEvent, now: int, keep: bool)
    | FailureCall(error: string, maxAttempts: nat)
    | RetryFailureCall(error: string)
    | ClaimCall(now: int)
    | AcquireCall(now: int)
    | ReapCall(threshold: int)
  {
    predicate Locking() {
      ClaimCall? || AcquireCall? || ReapCall?
    }

    predicate Charges() {
      FailureCall? || AcquireCall?
    }
  }

  /** The row with the values that the call sets, computed from `row`. */
  function Wanted(row: RawRow, call: Call): RawRow {
    match call
    case PersistCall(event, now, keep) => MarkedProcessed(row, event, now, keep)
    case FailureCall(error, maxAttempts) => FailureMarked(row, error, maxAttempts)
    case RetryFailureCall(error) => RetryFailed(row, error)
    case ClaimCall(now) => Claimed(row, now)
    case AcquireCall(now) => Acquired(row, now)
    case ReapCall(_) => row.(status := Pending, lockedAt := None)
  }

  /** What a locking call checks under the lock. */
  predicate Admits(row: RawRow, call: Call) {
    match call
    case ClaimCall(_) => row.status == Pending
    case AcquireCall(_) => Acquirable(row)
    case ReapCall(threshold) => Stale(row, threshold)
    case _ => false
  }

  datatype Tx = Tx(call: Call, loaded: RawRow)

  datatype State = State(row: RawRow, txs: map<TxId, Tx>)

  datatype Step =
    | Read(t: TxId, call: Call)
    | Write(t: TxId)
    | Abandon(t: TxId)
    | Whole(call: Call)

  predicate Enabled(s: State, step: Step) {
    match step
    case Read(t, call) => t !in s.txs && !call.Locking()
    case Write(t) => t in s.txs
    case Abandon(t) => t in s.txs
    case Whole(call) => Admits(s.row, call)
  }

  /** The UPDATE: the columns in which the wanted row differs from the loaded one, with its values. */
  function Written(row: RawRow, tx: Tx): RawRow {
    var loaded, wanted := tx.loaded, Wanted(tx.loaded, tx.call);
    row.(status := if wanted.status == loaded.status then row.status else wanted.status,
         attempts := if wanted.attempts == loaded.attempts then row.attempts else wanted.attempts,
         lastError := if wanted.lastError == loaded.lastError then row.lastError else wanted.lastError,
         lockedAt := if wanted.lockedAt == loaded.lockedAt then row.lockedAt else wanted.lockedAt,
         processedAt := if wanted.processedAt == loaded.processedAt then row.processedAt else wanted.processedAt)
  }

  function Next(s: State, step: Step): State {
    if !Enabled(s, step) then s
    else match step
      case Read(t, call) => s.(txs := s.txs[t := Tx(call, s.row)])
      case Write(t) => State(Written(s.row, s.txs[t]), s.txs - {t})
      case Abandon(t) => s.(txs := s.txs - {t})
      case Whole(call) => s.(row := Wanted(s.row, call))
  }

  function Exec(row: RawRow, steps: seq<Step>): State {
    if steps == [] then State(row, map[]) else Next(Exec(row, steps[..|steps| - 1]), steps[|steps| - 1])
  }

  function CommitOf(s: State, step: Step): seq<Call> {
    if !Enabled(s, step) then []
    else match step
      case Write(t) => [s.txs[t].call]
      case Whole(call) => [call]
      case _ => []
  }

  /** The committed calls, in commit order. */
  function Commits(row: RawRow, steps: seq<Step>): seq<Call> {
    if steps == [] then []
    else Commits(row, steps[..|steps| - 1]) + CommitOf(Exec(row, steps[..|steps| - 1]), steps[|steps| - 1])
  }

  /** Whole calls, one after the other. */
  function Serial(row: RawRow, calls: seq<Call>): RawRow {
    if calls == [] then row else Wanted(Serial(row, calls[..|calls| - 1]), calls[|calls| - 1])
  }

  /** Recorded worker failures plus manual-retry acquisitions. */
  function Charges(calls: seq<Call>): nat {
    if calls == [] then 0
    else Charges(calls[..|calls| - 1]) + if calls[|calls| - 1].Charges() then 1 else 0
  }

  lemma SerialSnoc(row: RawRow, calls: seq<Call>, call: Call)
    ensures Serial(row, calls + [call]) == Wanted(Serial(row, calls), call)
  {
    assert (calls + [call])[..|calls|] == calls;
  }

  lemma ChargesSnoc(calls: seq<Call>, call: Call)
    ensures Charges(calls + [call]) == Charges(calls) + if call.Charges() then 1 else 0
  {
    assert (calls + [call])[..|calls|] == calls;
  }

  lemma StepsSnoc(row: RawRow, steps: seq<Step>, step: Step)
    ensures Exec(row, steps + [step]) == Next(Exec(row, steps), step)
    ensures Commits(row, steps + [step]) == Commits(row, steps) + CommitOf(Exec(row, steps), step)
  {
    assert (steps + [step])[..|steps|] == steps;
  }

  lemma ReadRuns(row: RawRow, steps: seq<Step>, t: TxId, call: Call)
    requires t !in Exec(row, steps).txs && !call.Locking()
    ensures var s := Exec(row, steps);
            Exec(row, steps + [Read(t, call)]) == State(s.row, s.txs[t := Tx(call, s.row)])
    ensures Commits(row, steps + [Read(t, call)]) == Commits(row, steps)
  {
    StepsSnoc(row, steps, Read(t, call));
  }

  lemma WriteRuns(row: RawRow, steps: seq<Step>, t: TxId)
    requires t in Exec(row, steps).txs
    ensures var s := Exec(row, steps);
            && Exec(row, steps + [Write(t)]) == State(Written(s.row, s.txs[t]), s.txs - {t})
            && Commits(row, steps + [Write(t)]) == Commits(row, steps) + [s.txs[t].call]
  {
    StepsSnoc(row, steps, Write(t));
  }

  lemma WholeRuns(row: RawRow, steps: seq<Step>, call: Call)
    requires Admits(Exec(row, steps).row, call)
    ensures var s := Exec(row, steps);
            Exec(row, steps + [Whole(call)]) == State(Wanted(s.row, call), s.txs)
    ensures Commits(row, steps + [Whole(call)]) == Commits(row, steps) + [call]
  {
    StepsSnoc(row, steps, Whole(call));
  }

  /** The charges that have been committed. */
  function Charged(row: RawRow, steps: seq<Step>): nat {
    Charges(Commits(row, steps))
  }

  lemma ChargedNext(row: RawRow, steps: seq<Step>, i: nat)
    requires i < |steps|
    ensures Exec(row, steps[..i + 1]) == Next(Exec(row, steps[..i]), steps[i])
    ensures Charged(row, steps[..i + 1])
            == Charged(row, steps[..i]) + Charges(CommitOf(Exec(row, steps[..i]), steps[i]))
  {
    var s, step := Exec(row, steps[..i]), steps[i];
    assert steps[..i + 1] == steps[..i] + [step];
    StepsSnoc(row, steps[..i], step);
    if CommitOf(s, step) == [] {
      assert Commits(row, steps[..i]) + [] == Commits(row, steps[..i]);
    } else {
      ChargesSnoc(Commits(row, steps[..i]), CommitOf(s, step)[0]);
      ChargesSnoc([], CommitOf(s, step)[0]);
      assert [] + CommitOf(s, step) == CommitOf(s, step);
    }
  }

  lemma {:induction false} SerialCounts(row: RawRow, calls: seq<Call>)
    ensures Serial(row, calls).attempts == row.attempts + Charges(calls)
  {
    if calls == [] {
    } else {
      SerialCounts(row, calls[..|calls| - 1]);
    }
  }

  // Attempts.

  /** The step writes back a count that is not the row's any more. */
  predicate WritesStaleCount(s: State, step: Step) {
    step.Write? && Enabled(s, step) && s.txs[step.t].call.Charges() && s.txs[step.t].loaded.attempts != s.row.attempts
  }

  lemma ChargesOfStep(s: State, step: Step)
    ensures Charges(CommitOf(s, step)) ==
            if Enabled(s, step)
               && ((step.Write? && s.txs[step.t].call.Charges()) || (step.Whole? && step.call.Charges()))
            then 1 else 0
  {
    if CommitOf(s, step) == [] {
    } else {
      var call := CommitOf(s, step)[0];
      ChargesSnoc([], call);
      assert [] + [call] == [call] == CommitOf(s, step);
    }
  }

  /** Exactly which steps break the count. */
  lemma StepCountsIff(s: State, step: Step)
    ensures Next(s, step).row.attempts == s.row.attempts + Charges(CommitOf(s, step)) <==> !WritesStaleCount(s, step)
  {
    ChargesOfStep(s, step);
  }

  /** attempts is the number of charges. */
  predicate Exact(row: RawRow, steps: seq<Step>) {
    Exec(row, steps).row.attempts == row.attempts + Charged(row, steps)
  }

  lemma ExactNextIff(row: RawRow, steps: seq<Step>, i: nat)
    requires i < |steps| && Exact(row, steps[..i])
    ensures Exact(row, steps[..i + 1]) <==> !WritesStaleCount(Exec(row, steps[..i]), steps[i])
  {
    ChargedNext(row, steps, i);
    StepCountsIff(Exec(row, steps[..i]), steps[i]);
  }

  /** In every state of a run attempts counts its charges, if and only if no step of the run writes a stale count. */
  lemma ConservedIff(row: RawRow, steps: seq<Step>)
    ensures (forall i :: 0 <= i <= |steps| ==> Exact(row, steps[..i]))
            <==> (forall i :: 0 <= i < |steps| ==> !WritesStaleCount(Exec(row, steps[..i]), steps[i]))
  {
    var good := (i: nat) => i <= |steps| ==> Exact(row, steps[..i]);
    var bad := (i: nat) => i < |steps| ==> WritesStaleCount(Exec(row, steps[..i]), steps[i]);
    forall i | 0 <= i < |steps| && good(i)
      ensures good(i + 1) <==> !bad(i)
    {
      ExactNextIff(row, steps, i);
    }
    assert forall i :: 0 <= i <= |steps| ==> (good(i) <==> Exact(row, steps[..i]));
    assert forall i :: 0 <= i < |steps| ==> (bad(i) <==> WritesStaleCount(Exec(row, steps[..i]), steps[i]));
    GoodIffNoStepBad(|steps|, good, bad);
  }

  /** A count may lose charges to overlapping transactions, but never gains one. */
  lemma {:induction false} NeverOvercounted(row: RawRow, steps: seq<Step>)
    ensures Exec(row, steps).row.attempts <= row.attempts + Charged(row, steps)
    ensures forall t :: t in Exec(row, steps).txs ==>
              Exec(row, steps).txs[t].loaded.attempts <= row.attempts + Charged(row, steps)
  {
    if steps == [] {
    } else {
      var n := |steps| - 1;
      NeverOvercounted(row, steps[..n]);
      ChargedNext(row, steps, n);
      assert steps[..n + 1] == steps;
      StepAddsCharges(Exec(row, steps[..n]), steps[n]);
    }
  }

  lemma StepAddsCharges(s: State, step: Step)
    ensures step.Write? && Enabled(s, step) && s.txs[step.t].call.Charges() ==>
              Charges(CommitOf(s, step)) == 1 && Next(s, step).row.attempts == s.txs[step.t].loaded.attempts + 1
    ensures !(step.Write? && Enabled(s, step) && s.txs[step.t].call.Charges()) ==>
              Next(s, step).row.attempts == s.row.attempts + Charges(CommitOf(s, step))
  {
    ChargesOfStep(s, step);
    StepCountsIff(s, step);
  }

  // The other columns.

  datatype Column = StatusColumn | LastError | LockedAt | ProcessedAt

  predicate Same(x: RawRow, y: RawRow, col: Column) {
    match col
    case StatusColumn => x.status == y.status
    case LastError => x.lastError == y.lastError
    case LockedAt => x.lockedAt == y.lockedAt
    case ProcessedAt => x.processedAt == y.processedAt
  }

  /** The call sets the column. */
  predicate Sets(call: Call, col: Column) {
    match col
    case StatusColumn => true
    case LastError => !call.ClaimCall? && !call.ReapCall?
    case LockedAt => !call.PersistCall? && !call.RetryFailureCall?
    case ProcessedAt => call.PersistCall?
  }

  /** The status of a worker failure on the given count. */
  function Verdict(attempts: nat, maxAttempts: nat): Status {
    if attempts + 1 >= maxAttempts then Failed else Pending
  }

  /**
   * What a write leaves in a column it sets is right: if it leaves the column out, because the loaded row had the
   * value, the row still has it; and a worker failure is judged on the true count.
   */
  predicate Stands(row: RawRow, tx: Tx, col: Column, truth: nat) {
    if col.StatusColumn? && tx.call.FailureCall? then
      var judged := Verdict(tx.loaded.attempts, tx.call.maxAttempts);
      (if tx.loaded.status == judged then row.status else judged) == Verdict(truth, tx.call.maxAttempts)
    else
      Same(Wanted(tx.loaded, tx.call), tx.loaded, col) ==> Same(Wanted(tx.loaded, tx.call), row, col)
  }

  /** Whether the column is wrong after the step, when `before` says so before it and `truth` is the true count. */
  predicate OffAfter(s: State, step: Step, col: Column, truth: nat, before: bool) {
    var calls := CommitOf(s, step);
    if calls == [] || !Sets(calls[0], col) then before
    else step.Write? && !Stands(s.row, s.txs[step.t], col, truth)
  }

  /** The last write that sets the column left it wrong. */
  predicate Off(row: RawRow, steps: seq<Step>, col: Column) {
    if steps == [] then false
    else
      var init := steps[..|steps| - 1];
      OffAfter(Exec(row, init), steps[|steps| - 1], col, row.attempts + Charged(row, init), Off(row, init, col))
  }

  lemma WrittenIsRightIff(row: RawRow, tx: Tx, col: Column, serial: RawRow)
    requires !tx.call.Locking() && Sets(tx.call, col)
    ensures Same(Written(row, tx), Wanted(serial, tx.call), col) <==> Stands(row, tx, col, serial.attempts)
  {
  }

  lemma UnsetStays(row: RawRow, tx: Tx, col: Column)
    requires !Sets(tx.call, col)
    ensures Same(Written(row, tx), row, col) && Same(Wanted(row, tx.call), row, col)
  {
  }

  lemma {:induction false} OpenCallsDoNotLock(row: RawRow, steps: seq<Step>)
    ensures forall t :: t in Exec(row, steps).txs ==> !Exec(row, steps).txs[t].call.Locking()
  {
    if steps == [] {
    } else {
      OpenCallsDoNotLock(row, steps[..|steps| - 1]);
    }
  }

  /** The step of CellIsSerialIff, on a row that the serial run has as `serial`. */
  lemma StepCellIff(s: State, step: Step, col: Column, serial: RawRow)
    requires forall t :: t in s.txs ==> !s.txs[t].call.Locking()
    ensures var calls := CommitOf(s, step);
            Same(Next(s, step).row, if calls == [] then serial else Wanted(serial, calls[0]), col)
            <==> !OffAfter(s, step, col, serial.attempts, !Same(s.row, serial, col))
  {
    if CommitOf(s, step) == [] {
    } else {
      var call := CommitOf(s, step)[0];
      if !Sets(call, col) {
        UnsetStays(s.row, Tx(call, if step.Write? then s.txs[step.t].loaded else s.row), col);
        UnsetStays(serial, Tx(call, s.row), col);
      } else if step.Write? {
        WrittenIsRightIff(s.row, s.txs[step.t], col, serial);
      }
    }
  }

  lemma SerialNext(row: RawRow, steps: seq<Step>, step: Step)
    ensures var calls, y := CommitOf(Exec(row, steps), step), Serial(row, Commits(row, steps));
            Serial(row, Commits(row, steps + [step])) == if calls == [] then y else Wanted(y, calls[0])
  {
    var calls := CommitOf(Exec(row, steps), step);
    StepsSnoc(row, steps, step);
    if calls == [] {
      assert Commits(row, steps) + [] == Commits(row, steps);
    } else {
      SerialSnoc(row, Commits(row, steps), calls[0]);
    }
  }

  /** A column is that of the committed calls run whole in commit order, if and only if its last write left it right. */
  lemma {:induction false} CellIsSerialIff(row: RawRow, steps: seq<Step>, col: Column)
    ensures Same(Exec(row, steps).row, Serial(row, Commits(row, steps)), col) <==> !Off(row, steps, col)
  {
    if steps == [] {
    } else {
      var init, step := steps[..|steps| - 1], steps[|steps| - 1];
      assert steps == init + [step];
      CellIsSerialIff(row, init, col);
      OpenCallsDoNotLock(row, init);
      SerialCounts(row, Commits(row, init));
      SerialNext(row, init, step);
      StepCellIff(Exec(row, init), step, col, Serial(row, Commits(row, init)));
    }
  }

  lemma {:induction false} IdentityStays(row: RawRow, steps: seq<Step>)
    ensures Exec(row, steps).row.SameIdentity(row)
  {
    if steps == [] {
    } else {
      IdentityStays(row, steps[..|steps| - 1]);
    }
  }

  lemma {:induction false} SerialIdentityStays(row: RawRow, calls: seq<Call>)
    ensures Serial(row, calls).SameIdentity(row)
  {
    if calls == [] {
    } else {
      SerialIdentityStays(row, calls[..|calls| - 1]);
    }
  }

  lemma SameCellsSameRow(x: RawRow, y: RawRow)
    requires x.SameIdentity(y)
    ensures x == y <==>
            && x.attempts == y.attempts && Same(x, y, StatusColumn)
            && Same(x, y, LastError) && Same(x, y, LockedAt) && Same(x, y, ProcessedAt)
  {
  }

  predicate NoneOff(row: RawRow, steps: seq<Step>) {
    && !Off(row, steps, StatusColumn) && !Off(row, steps, LastError)
    && !Off(row, steps, LockedAt) && !Off(row, steps, ProcessedAt)
  }

  /** Exactly which interleavings leave the row of the serial run. */
  lemma RowIsSerialIff(row: RawRow, steps: seq<Step>)
    ensures Exec(row, steps).row == Serial(row, Commits(row, steps)) <==>
            Exact(row, steps) && NoneOff(row, steps)
  {
    CellIsSerialIff(row, steps, StatusColumn);
    CellIsSerialIff(row, steps, LastError);
    CellIsSerialIff(row, steps, LockedAt);
    CellIsSerialIff(row, steps, ProcessedAt);
    SerialCounts(row, Commits(row, steps));
    IdentityStays(row, steps);
    SerialIdentityStays(row, Commits(row, steps));
    SameCellsSameRow(Exec(row, steps).row, Serial(row, Commits(row, steps)));
  }

  lemma FreshWrite(row: RawRow, tx: Tx)
    requires tx.loaded == row
    ensures Written(row, tx) == Wanted(row, tx.call)
  {
  }

  /** In particular those in which every write finds the row as its call has loaded it. */
  lemma {:induction false} FreshIsSerial(row: RawRow, steps: seq<Step>)
    requires forall i :: 0 <= i < |steps| && steps[i].Write? && Enabled(Exec(row, steps[..i]), steps[i]) ==>
               Exec(row, steps[..i]).txs[steps[i].t].loaded == Exec(row, steps[..i]).row
    ensures Exec(row, steps).row == Serial(row, Commits(row, steps))
  {
    if steps == [] {
    } else {
      var n := |steps| - 1;
      var s, calls := Exec(row, steps[..n]), Commits(row, steps[..n]);
      assert forall i :: 0 <= i <= n ==> steps[..n][..i] == steps[..i];
      FreshIsSerial(row, steps[..n]);
      if CommitOf(s, steps[n]) == [] {
        assert calls + [] == calls;
      } else {
        SerialSnoc(row, calls, CommitOf(s, steps[n])[0]);
        if steps[n].Write? {
          FreshWrite(s.row, s.txs[steps[n].t]);
        }
      }
    }
  }

  /** An open call may end at any point without a trace. */
  lemma AbandonLeavesNothing(row: RawRow, steps: seq<Step>, t: TxId)
    requires t in Exec(row, steps).txs
    ensures var s := Exec(row, steps);
            && Exec(row, steps + [Abandon(t)]) == State(s.row, s.txs - {t})
            && Commits(row, steps + [Abandon(t)]) == Commits(row, steps)
  {
    StepsSnoc(row, steps, Abandon(t));
  }

  // Where it goes wrong.

  /** Two calls load the row, the second call is written first. */
  function SecondFirst(x: Call, y: Call): seq<Step> {
    [] + [Read(0, x)] + [Read(1, y)] + [Write(1)] + [Write(0)]
  }

  lemma AfterSecondFirst(row: RawRow, x: Call, y: Call)
    requires !x.Locking() && !y.Locking()
    ensures Exec(row, SecondFirst(x, y)).row == Written(Wanted(row, y), Tx(x, row))
    ensures Commits(row, SecondFirst(x, y)) == [y, x]
  {
    var one := [] + [Read(0, x)];
    var two := one + [Read(1, y)];
    ReadRuns(row, [], 0, x);
    ReadRuns(row, one, 1, y);
    WriteRuns(row, two, 1);
    WriteRuns(row, two + [Write(1)], 0);
    FreshWrite(row, Tx(y, row));
  }

  /** A persist that loads a processed row leaves the status to a worker failure written in between. */
  lemma MarkIsLost(row: RawRow, event: NormalizedEvent, now: int, keep: bool, error: string, maxAttempts: nat)
    requires row.status == Processed
    ensures var persist, failure := PersistCall(event, now, keep), FailureCall(error, maxAttempts);
            && Exec(row, SecondFirst(persist, failure)).row.status == Verdict(row.attempts, maxAttempts)
            && Commits(row, SecondFirst(persist, failure)) == [failure, persist]
            && Serial(row, [failure, persist]).status == Processed
  {
    AfterSecondFirst(row, PersistCall(event, now, keep), FailureCall(error, maxAttempts));
  }

  /** mark_failed reads the row, then a retry acquires it. */
  function ReadThenAcquire(failure: Call, acquire: Call): seq<Step> {
    [] + [Read(0, failure)] + [Whole(acquire)]
  }

  lemma AfterReadThenAcquire(row: RawRow, failure: Call, acquire: Call)
    requires failure.FailureCall? && acquire.AcquireCall? && Acquirable(row)
    ensures Exec(row, ReadThenAcquire(failure, acquire)) == State(Wanted(row, acquire), map[0 := Tx(failure, row)])
    ensures Commits(row, ReadThenAcquire(failure, acquire)) == [acquire]
  {
    ReadRuns(row, [], 0, failure);
    WholeRuns(row, [] + [Read(0, failure)], acquire);
  }

  lemma ChargesOfTwo(x: Call, y: Call)
    requires x.Charges() && y.Charges()
    ensures Charges([x] + [y]) == 2
  {
    ChargesSnoc([], x);
    ChargesSnoc([x], y);
    assert [] + [x] == [x];
  }

  /** A retry acquired between the read and the write of mark_failed is not counted. */
  lemma RetryIsLost(row: RawRow, now: int, error: string, maxAttempts: nat)
    requires Acquirable(row)
    ensures var steps := ReadThenAcquire(FailureCall(error, maxAttempts), AcquireCall(now)) + [Write(0)];
            Charged(row, steps) == 2 && Exec(row, steps).row.attempts == row.attempts + 1
  {
    var failure, acquire := FailureCall(error, maxAttempts), AcquireCall(now);
    AfterReadThenAcquire(row, failure, acquire);
    StepsSnoc(row, ReadThenAcquire(failure, acquire), Write(0));
    ChargesOfTwo(acquire, failure);
  }
}
