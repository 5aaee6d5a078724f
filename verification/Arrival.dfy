/** Rows are claimed in the order in which they came in. */
module Arrival {
  import opened Tables
  import opened Pipeline
  import opened Safety
  import opened Progress

  predicate Inserts(act: Action, r: RawId) {
    (act.InsertPrimary? || act.InsertDuplicate?) && act.id == r
  }

  /** Step i inserts row r for its agent, whose transaction is still open, and unchanged, before step k. */
  ghost predicate OpenSince(cfg: Config, s: Sys, acts: seq<Action>, r: RawId, i: nat, k: nat) {
    && i < k <= |acts| && Inserts(acts[i], r) && Enabled(cfg, Exec(cfg, s, acts[..i]), acts[i])
    && acts[i].a in Exec(cfg, s, acts[..k]).agents
    && forall j :: i < j <= k ==>
         acts[i].a in Exec(cfg, s, acts[..j]).agents
         && Exec(cfg, s, acts[..j]).agents[acts[i].a] == Exec(cfg, s, acts[..k]).agents[acts[i].a]
  }

  /** Step k commits the row that step i has inserted. */
  ghost predicate CommittedBy(cfg: Config, s: Sys, acts: seq<Action>, r: RawId, i: nat, k: nat) {
    && k < |acts| && OpenSince(cfg, s, acts, r, i, k) && acts[k] == CommitInsert(acts[i].a)
    && r !in Exec(cfg, s, acts[..k]).db.raws && r in Exec(cfg, s, acts[..k + 1]).db.raws
  }

  lemma OpenSincePrefix(cfg: Config, s: Sys, acts: seq<Action>, n: nat, r: RawId, i: nat, k: nat)
    requires n <= |acts| && k <= n
    ensures OpenSince(cfg, s, acts[..n], r, i, k) <==> OpenSince(cfg, s, acts, r, i, k)
  {
    assert forall j :: 0 <= j <= n ==> acts[..n][..j] == acts[..j];
  }

  /** Every open insert was begun by a step of its agent, at the time its row carries. */
  lemma {:induction false} OpenInsertBegan(cfg: Config, clock: int, acts: seq<Action>, a: AgentId) returns (i: nat)
    requires a in Exec(cfg, Start(clock), acts).agents && Exec(cfg, Start(clock), acts).agents[a].Inserted?
    ensures var at := Exec(cfg, Start(clock), acts).agents[a];
            && OpenSince(cfg, Start(clock), acts, at.id, i, |acts|) && acts[i].a == a
            && at.row.receivedAt == Exec(cfg, Start(clock), acts[..i]).clock
  {
    var n := |acts| - 1;
    var s, s' := Exec(cfg, Start(clock), acts[..n]), Exec(cfg, Start(clock), acts);
    assert acts[..|acts|] == acts;
    if a in s.agents && s.agents[a] == s'.agents[a] {
      i := OpenInsertBegan(cfg, clock, acts[..n], a);
      OpenSincePrefix(cfg, Start(clock), acts, n, s.agents[a].id, i, n);
      assert acts[..n][..i] == acts[..i];
    } else {
      i := n;
    }
  }

  /** received_at is the time of the row's own insert, for primary rows and duplicates alike. */
  lemma {:induction false} ReceivedWhenInserted(cfg: Config, clock: int, acts: seq<Action>, r: RawId)
    returns (i: nat, k: nat)
    requires r in Exec(cfg, Start(clock), acts).db.raws
    ensures CommittedBy(cfg, Start(clock), acts, r, i, k)
    ensures Exec(cfg, Start(clock), acts).db.raws[r].receivedAt == Exec(cfg, Start(clock), acts[..i]).clock
  {
    var n := |acts| - 1;
    var s, act := Exec(cfg, Start(clock), acts[..n]), acts[n];
    assert acts[..|acts|] == acts;
    if r in s.db.raws {
      i, k := ReceivedWhenInserted(cfg, clock, acts[..n], r);
      OpenSincePrefix(cfg, Start(clock), acts, n, r, i, k);
      assert acts[..n][..i] == acts[..i] && acts[..n][..k] == acts[..k] && acts[..n][..k + 1] == acts[..k + 1];
      Reachable(cfg, clock, acts[..n]);
      IdentityStays(cfg, s, act, r);
    } else {
      i := OpenInsertBegan(cfg, clock, acts[..n], act.a);
      k := n;
      OpenSincePrefix(cfg, Start(clock), acts, n, r, i, n);
      assert acts[..n][..i] == acts[..i];
    }
  }

  lemma IdentityStays(cfg: Config, s: Sys, act: Action, r: RawId)
    requires Inv(s) && r in s.db.raws
    ensures r in Next(cfg, s, act).db.raws && Next(cfg, s, act).db.raws[r].SameIdentity(s.db.raws[r])
  {
    if act.CommitInsert? {
      if Enabled(cfg, s, act) {
        assert AgentOk(s.db.raws, s.agents[act.a]);
      }
    } else {
      OnlyCommitInsertAddsRows(cfg, s, act);
    }
  }

  /**
   * First in, first claimed: a claim never returns a row that was inserted at a later time than some pending row
   * without an open claim.
   */
  lemma ClaimsFollowArrival(cfg: Config, clock: int, acts: seq<Action>, a: AgentId, r: RawId, q: RawId)
    returns (i: nat, k: nat, j: nat, l: nat)
    requires Enabled(cfg, Exec(cfg, Start(clock), acts), SelectClaim(a, r))
    requires var s := Exec(cfg, Start(clock), acts);
             q in s.db.raws && s.db.raws[q].status == Pending && !OpenClaim(s, q)
    ensures CommittedBy(cfg, Start(clock), acts, r, i, k) && CommittedBy(cfg, Start(clock), acts, q, j, l)
    ensures Exec(cfg, Start(clock), acts[..i]).clock <= Exec(cfg, Start(clock), acts[..j]).clock
  {
    ClaimStartsIff(cfg, Exec(cfg, Start(clock), acts), a, r);
    i, k := ReceivedWhenInserted(cfg, clock, acts, r);
    j, l := ReceivedWhenInserted(cfg, clock, acts, q);
  }
}
