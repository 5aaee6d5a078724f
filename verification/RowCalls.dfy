/** The system of atomic transactions within the model of one raw row at statement granularity. */
module RowCalls {
  import opened Tables
  import opened Pipeline
  import opened Safety
  import O = RowOverlaps

  /** The statements of a call with nothing in between. */
  function StepsOf(call: O.Call): seq<O.Step> {
    if call.Locking() then [] + [O.Whole(call)] else [] + [O.Read(0, call)] + [O.Write(0)]
  }

  /** The call that a step of the system makes, if it makes one that writes a row. */
  ghost function CallOf(cfg: Config, s: Sys, act: Action): O.Call
    requires Enabled(cfg, s, act)
  {
    match act
    case PersistEvent(_, event) => O.PersistCall(event, s.clock, cfg.keepUnclassified)
    case MarkFailure(_, error) => O.FailureCall(error, cfg.maxAttempts)
    case RecordRetryFailure(_, error) => O.RetryFailureCall(error)
    case AcquireRetry(_, _) => O.AcquireCall(s.clock)
    case CommitClaim(a) => O.ClaimCall(s.agents[a].since)
    case Reap(threshold) => O.ReapCall(threshold)
    case _ => O.ReapCall(s.clock)
  }

  /** What a step of the system does to a row, if anything, is one whole call on it. */
  lemma StepIsCall(cfg: Config, s: Sys, act: Action, r: RawId)
    requires Inv(s) && r in s.db.raws && Enabled(cfg, s, act)
    ensures r in Next(cfg, s, act).db.raws
    ensures var row, row', call := s.db.raws[r], Next(cfg, s, act).db.raws[r], CallOf(cfg, s, act);
            row' == row || (row' == O.Wanted(row, call) && (call.Locking() ==> O.Admits(row, call)))
  {
    if act.CommitInsert? || act.CommitClaim? {
      assert AgentOk(s.db.raws, s.agents[act.a]);
    }
  }

  lemma ReadAndWrite(row: RawRow, steps: seq<O.Step>, call: O.Call)
    requires O.Exec(row, steps).txs == map[] && !call.Locking()
    ensures var all := steps + [O.Read(0, call)] + [O.Write(0)];
            && O.Exec(row, all) == O.State(O.Wanted(O.Exec(row, steps).row, call), map[])
            && O.Commits(row, all) == O.Commits(row, steps) + [call]
  {
    var now := O.Exec(row, steps).row;
    O.ReadRuns(row, steps, 0, call);
    O.WriteRuns(row, steps + [O.Read(0, call)], 0);
    O.FreshWrite(now, O.Tx(call, now));
  }

  /** Run from a state with no open call, the statements of a whole call have its effect. */
  lemma WholeCallRuns(row: RawRow, steps: seq<O.Step>, call: O.Call)
    requires O.Exec(row, steps).txs == map[]
    requires call.Locking() ==> O.Admits(O.Exec(row, steps).row, call)
    ensures O.Exec(row, steps + StepsOf(call)) == O.State(O.Wanted(O.Exec(row, steps).row, call), map[])
    ensures O.Commits(row, steps + StepsOf(call)) == O.Commits(row, steps) + [call]
  {
    if call.Locking() {
      O.WholeRuns(row, steps, call);
      assert steps + StepsOf(call) == steps + [O.Whole(call)];
    } else {
      ReadAndWrite(row, steps, call);
      assert steps + StepsOf(call) == steps + [O.Read(0, call)] + [O.Write(0)];
    }
  }

  /** Along every run of the system, every row goes through a run of whole calls. */
  lemma {:induction false} RunIsRowRun(cfg: Config, s: Sys, acts: seq<Action>, r: RawId) returns (steps: seq<O.Step>)
    requires Inv(s) && r in s.db.raws
    ensures Inv(Exec(cfg, s, acts)) && r in Exec(cfg, s, acts).db.raws
    ensures O.Exec(s.db.raws[r], steps) == O.State(Exec(cfg, s, acts).db.raws[r], map[])
  {
    if acts == [] {
      steps := [];
    } else {
      var init, act := acts[..|acts| - 1], acts[|acts| - 1];
      steps := RunIsRowRun(cfg, s, init, r);
      var mid := Exec(cfg, s, init);
      NextKeepsInv(cfg, mid, act);
      if Enabled(cfg, mid, act) {
        StepIsCall(cfg, mid, act, r);
        if Next(cfg, mid, act).db.raws[r] != mid.db.raws[r] {
          WholeCallRuns(s.db.raws[r], steps, CallOf(cfg, mid, act));
          steps := steps + StepsOf(CallOf(cfg, mid, act));
        }
      }
    }
  }
}
