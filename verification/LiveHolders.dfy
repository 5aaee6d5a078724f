/**
 * What the tables show of live holders: nothing but the age of the claim. Wherever a holder has crashed within its
 * lease, a run without the crash ends in the same tables.
 */
module LiveHolders {
  import opened Options
  import opened Tables
  import opened Pipeline
  import opened Safety
  import opened Lease

  // Agents are interchangeable.

  function Swapped(a: AgentId, b: AgentId, f: AgentId): AgentId {
    if a == b then f else if a == f then b else a
  }

  function SwappedStep(act: Action, b: AgentId, f: AgentId): Action {
    if act.Tick? || act.Reap? then act else act.(a := Swapped(act.a, b, f))
  }

  function SwappedRun(acts: seq<Action>, b: AgentId, f: AgentId): seq<Action> {
    if acts == [] then [] else SwappedRun(acts[..|acts| - 1], b, f) + [SwappedStep(acts[|acts| - 1], b, f)]
  }

  /** The same state with b and f in each other's place. */
  ghost predicate Mirrors(s: Sys, t: Sys, b: AgentId, f: AgentId) {
    && t.db == s.db && t.clock == s.clock
    && (forall a: AgentId :: a in t.agents <==> Swapped(a, b, f) in s.agents)
    && (forall a: AgentId :: a in t.agents ==> t.agents[a] == s.agents[Swapped(a, b, f)])
  }

  lemma MirrorsBack(s: Sys, t: Sys, b: AgentId, f: AgentId)
    requires Mirrors(s, t, b, f)
    ensures Mirrors(t, s, b, f)
  {
    forall a: AgentId
      ensures a in s.agents <==> Swapped(a, b, f) in t.agents
      ensures a in s.agents ==> s.agents[a] == t.agents[Swapped(a, b, f)]
    {
      assert Swapped(Swapped(a, b, f), b, f) == a;
    }
  }

  lemma MirrorImage(s: Sys, t: Sys, a: AgentId, b: AgentId, f: AgentId)
    requires Mirrors(s, t, b, f) && a in s.agents
    ensures Swapped(a, b, f) in t.agents && t.agents[Swapped(a, b, f)] == s.agents[a]
  {
    assert Swapped(Swapped(a, b, f), b, f) == a;
  }

  // What one agent sees of the others' locks and uncommitted rows is in the mirror, too.

  lemma MirrorLocks(s: Sys, t: Sys, b: AgentId, f: AgentId)
    requires Mirrors(s, t, b, f)
    ensures Locked(s.agents) <= Locked(t.agents)
  {
    forall r | r in Locked(s.agents)
      ensures r in Locked(t.agents)
    {
      var a :| a in s.agents && s.agents[a].Claiming? && s.agents[a].raw == r;
      MirrorImage(s, t, a, b, f);
    }
  }

  lemma MirrorUnused(s: Sys, t: Sys, id: RawId, b: AgentId, f: AgentId)
    requires Mirrors(s, t, b, f)
    ensures Unused(t, id) ==> Unused(s, id)
  {
    if Unused(t, id) {
      forall a | a in s.agents && s.agents[a].Inserted?
        ensures s.agents[a].id != id
      {
        MirrorImage(s, t, a, b, f);
      }
    }
  }

  lemma MirrorInFlight(s: Sys, t: Sys, v: string, h: string, b: AgentId, f: AgentId)
    requires Mirrors(s, t, b, f)
    ensures PrimaryInFlight(s.agents, v, h) ==> PrimaryInFlight(t.agents, v, h)
  {
    if PrimaryInFlight(s.agents, v, h) {
      var a :| a in s.agents && s.agents[a].Inserted? && s.agents[a].row.Primary() && s.agents[a].row.SameKey(v, h);
      MirrorImage(s, t, a, b, f);
    }
  }

  lemma MirrorShowsHolders(cfg: Config, s: Sys, t: Sys, r: RawId, b: AgentId, f: AgentId)
    requires Mirrors(s, t, b, f)
    ensures HasLiveHolder(s, r) ==> HasLiveHolder(t, r)
    ensures LeaseHeld(cfg, t) ==> LeaseHeld(cfg, s)
  {
    if HasLiveHolder(s, r) {
      var a :| a in s.agents && s.agents[a].Holder() && s.agents[a].raw == r;
      MirrorImage(s, t, a, b, f);
    }
    if LeaseHeld(cfg, t) {
      forall a | a in s.agents && s.agents[a].Holder()
        ensures s.clock < s.agents[a].since + cfg.window
      {
        MirrorImage(s, t, a, b, f);
      }
    }
  }

  /** Two agents in the same position, in states that show them the same. */
  ghost predicate Alike(s: Sys, a: AgentId, t: Sys, a': AgentId) {
    && t.db == s.db && t.clock == s.clock && Locked(t.agents) == Locked(s.agents)
    && (forall id :: Unused(t, id) <==> Unused(s, id))
    && (forall v, h :: PrimaryInFlight(t.agents, v, h) <==> PrimaryInFlight(s.agents, v, h))
    && (a' in t.agents <==> a in s.agents) && (a in s.agents ==> t.agents[a'] == s.agents[a])
  }

  /** They can take the same steps. */
  lemma AlikeEnabled(cfg: Config, s: Sys, t: Sys, act: Action, a': AgentId)
    requires !act.Tick? && !act.Reap? && Alike(s, act.a, t, a')
    ensures Enabled(cfg, t, act.(a := a')) <==> Enabled(cfg, s, act)
  {
  }

  /** With the same effect on the tables and on themselves. */
  lemma AlikeNext(cfg: Config, s: Sys, t: Sys, act: Action, a': AgentId)
    requires !act.Tick? && !act.Reap? && Alike(s, act.a, t, a')
    ensures var s', t' := Next(cfg, s, act), Next(cfg, t, act.(a := a'));
            && t'.db == s'.db && t'.clock == s'.clock
            && (a' in t'.agents <==> act.a in s'.agents) && (act.a in s'.agents ==> t'.agents[a'] == s'.agents[act.a])
  {
    AlikeEnabled(cfg, s, t, act, a');
  }

  /** A step changes no other agent. */
  lemma NextLeavesOthers(cfg: Config, s: Sys, act: Action, b: AgentId)
    requires ByOther(act, b)
    ensures b in Next(cfg, s, act).agents <==> b in s.agents
    ensures b in s.agents ==> Next(cfg, s, act).agents[b] == s.agents[b]
  {
  }

  lemma MirrorsAlike(s: Sys, t: Sys, a: AgentId, b: AgentId, f: AgentId)
    requires Mirrors(s, t, b, f)
    ensures Alike(s, a, t, Swapped(a, b, f))
  {
    MirrorsBack(s, t, b, f);
    MirrorLocks(s, t, b, f);
    MirrorLocks(t, s, b, f);
    forall id
      ensures Unused(t, id) <==> Unused(s, id)
    {
      MirrorUnused(s, t, id, b, f);
      MirrorUnused(t, s, id, b, f);
    }
    forall v, h
      ensures PrimaryInFlight(t.agents, v, h) <==> PrimaryInFlight(s.agents, v, h)
    {
      MirrorInFlight(s, t, v, h, b, f);
      MirrorInFlight(t, s, v, h, b, f);
    }
  }

  lemma EnabledMirrors(cfg: Config, s: Sys, t: Sys, act: Action, b: AgentId, f: AgentId)
    requires Mirrors(s, t, b, f)
    ensures Enabled(cfg, t, SwappedStep(act, b, f)) <==> Enabled(cfg, s, act)
  {
    if act.Tick? || act.Reap? {
    } else {
      MirrorsAlike(s, t, act.a, b, f);
      AlikeEnabled(cfg, s, t, act, Swapped(act.a, b, f));
    }
  }

  lemma OthersMirror(cfg: Config, s: Sys, t: Sys, act: Action, b: AgentId, f: AgentId, a: AgentId)
    requires Mirrors(s, t, b, f) && !act.Tick? && !act.Reap? && a != Swapped(act.a, b, f)
    ensures var s', t' := Next(cfg, s, act), Next(cfg, t, SwappedStep(act, b, f));
            && (a in t'.agents <==> Swapped(a, b, f) in s'.agents)
            && (a in t'.agents ==> t'.agents[a] == s'.agents[Swapped(a, b, f)])
  {
    NextLeavesOthers(cfg, t, SwappedStep(act, b, f), a);
    NextLeavesOthers(cfg, s, act, Swapped(a, b, f));
  }

  lemma NextMirrors(cfg: Config, s: Sys, t: Sys, act: Action, b: AgentId, f: AgentId)
    requires Mirrors(s, t, b, f)
    ensures Mirrors(Next(cfg, s, act), Next(cfg, t, SwappedStep(act, b, f)), b, f)
  {
    if act.Tick? || act.Reap? {
    } else {
      var a' := Swapped(act.a, b, f);
      MirrorsAlike(s, t, act.a, b, f);
      AlikeNext(cfg, s, t, act, a');
      var s', t' := Next(cfg, s, act), Next(cfg, t, SwappedStep(act, b, f));
      forall a: AgentId
        ensures a in t'.agents <==> Swapped(a, b, f) in s'.agents
        ensures a in t'.agents ==> t'.agents[a] == s'.agents[Swapped(a, b, f)]
      {
        if a != a' {
          OthersMirror(cfg, s, t, act, b, f, a);
        }
      }
    }
  }

  lemma {:induction false} RunMirrors(cfg: Config, clock: int, acts: seq<Action>, b: AgentId, f: AgentId)
    requires LeasedRun(cfg, Start(clock), acts)
    ensures Mirrors(Exec(cfg, Start(clock), acts), Exec(cfg, Start(clock), SwappedRun(acts, b, f)), b, f)
    ensures LeasedRun(cfg, Start(clock), SwappedRun(acts, b, f))
    ensures UncontendedRun(cfg, Start(clock), acts) ==> UncontendedRun(cfg, Start(clock), SwappedRun(acts, b, f))
  {
    if acts == [] {
    } else {
      var init, act := acts[..|acts| - 1], acts[|acts| - 1];
      assert acts == init + [act];
      LeasedSnoc(cfg, Start(clock), init, act);
      UncontendedSnoc(cfg, Start(clock), init, act);
      RunMirrors(cfg, clock, init, b, f);
      var s, t := Exec(cfg, Start(clock), init), Exec(cfg, Start(clock), SwappedRun(init, b, f));
      NextMirrors(cfg, s, t, act, b, f);
      TakesOverMirrors(cfg, s, t, act, b, f);
      MirrorsBack(Next(cfg, s, act), Next(cfg, t, SwappedStep(act, b, f)), b, f);
      MirrorShowsHolders(cfg, Next(cfg, t, SwappedStep(act, b, f)), Next(cfg, s, act), 0, b, f);
      LeasedSnoc(cfg, Start(clock), SwappedRun(init, b, f), SwappedStep(act, b, f));
      UncontendedSnoc(cfg, Start(clock), SwappedRun(init, b, f), SwappedStep(act, b, f));
    }
  }

  lemma TakesOverMirrors(cfg: Config, s: Sys, t: Sys, act: Action, b: AgentId, f: AgentId)
    requires Mirrors(s, t, b, f)
    ensures TakesOver(cfg, t, SwappedStep(act, b, f)) ==> TakesOver(cfg, s, act)
  {
    EnabledMirrors(cfg, s, t, act, b, f);
    MirrorsBack(s, t, b, f);
    if act.AcquireRetry? {
      MirrorShowsHolders(cfg, t, s, act.raw, b, f);
    }
  }

  // A further holder is in nobody's way.

  function Joined(s: Sys, f: AgentId, at: Agent): Sys {
    s.(agents := s.agents[f := at])
  }

  lemma JoinedShows(s: Sys, f: AgentId, at: Agent)
    requires f !in s.agents && at.Holder()
    ensures Locked(Joined(s, f, at).agents) == Locked(s.agents)
    ensures forall id :: Unused(Joined(s, f, at), id) <==> Unused(s, id)
    ensures forall v, h :: PrimaryInFlight(Joined(s, f, at).agents, v, h) <==> PrimaryInFlight(s.agents, v, h)
  {
    LockedByOne(s.agents, f, at);
    var t := Joined(s, f, at);
    assert forall a :: a in s.agents ==> t.agents[a] == s.agents[a];
    assert forall a :: a in t.agents ==> a == f || t.agents[a] == s.agents[a];
    assert t.agents[f] == at;
  }

  lemma EnabledJoined(cfg: Config, s: Sys, act: Action, f: AgentId, at: Agent)
    requires f !in s.agents && at.Holder() && ByOther(act, f)
    ensures Enabled(cfg, Joined(s, f, at), act) <==> Enabled(cfg, s, act)
  {
    JoinedShows(s, f, at);
  }

  lemma OthersJoined(cfg: Config, s: Sys, act: Action, f: AgentId, at: Agent, a: AgentId)
    requires f !in s.agents && at.Holder() && ByOther(act, f)
    ensures var s', t' := Next(cfg, s, act), Next(cfg, Joined(s, f, at), act);
            && (a in t'.agents <==> a == f || a in s'.agents)
            && (a in t'.agents ==> t'.agents[a] == if a == f then at else s'.agents[a])
  {
    if ByOther(act, a) {
      NextLeavesOthers(cfg, s, act, a);
      NextLeavesOthers(cfg, Joined(s, f, at), act, a);
    } else {
      JoinedShows(s, f, at);
      AlikeNext(cfg, s, Joined(s, f, at), act, a);
      assert act.(a := a) == act;
    }
  }

  lemma NextJoined(cfg: Config, s: Sys, act: Action, f: AgentId, at: Agent)
    requires f !in s.agents && at.Holder() && ByOther(act, f)
    ensures Next(cfg, Joined(s, f, at), act) == Joined(Next(cfg, s, act), f, at)
  {
    var s', t' := Next(cfg, s, act), Next(cfg, Joined(s, f, at), act);
    forall a: AgentId
      ensures a in t'.agents <==> a == f || a in s'.agents
      ensures a in t'.agents ==> t'.agents[a] == if a == f then at else s'.agents[a]
    {
      OthersJoined(cfg, s, act, f, at, a);
    }
    DbJoined(cfg, s, act, f, at);
    assert t'.agents == s'.agents[f := at];
  }

  lemma DbJoined(cfg: Config, s: Sys, act: Action, f: AgentId, at: Agent)
    requires f !in s.agents && at.Holder() && ByOther(act, f)
    ensures var s', t' := Next(cfg, s, act), Next(cfg, Joined(s, f, at), act);
            t'.db == s'.db && t'.clock == s'.clock
  {
    if act.Tick? || act.Reap? {
    } else {
      JoinedShows(s, f, at);
      AlikeNext(cfg, s, Joined(s, f, at), act, act.a);
      assert act.(a := act.a) == act;
    }
  }

  // The holder of a processing row.

  ghost predicate HeldBy(s: Sys, r: RawId, b: AgentId) {
    && b in s.agents && s.agents[b].Holder() && s.agents[b].raw == r
    && r in s.db.raws && s.db.raws[r].lockedAt == Some(s.agents[b].since)
  }

  /** The row is processing, and its claim is within the lease. */
  ghost predicate YoungClaim(cfg: Config, s: Sys, r: RawId) {
    && r in s.db.raws && s.db.raws[r].status == Processing && s.db.raws[r].lockedAt.Some?
    && s.clock < s.db.raws[r].lockedAt.value + cfg.window
  }

  ghost predicate TakesRow(cfg: Config, s: Sys, act: Action, r: RawId) {
    Enabled(cfg, s, act)
    && ((act.CommitClaim? && s.agents[act.a].raw == r) || (act.AcquireRetry? && act.raw == r))
  }

  /** A row that stays processing without being taken is not written, and its holders stay unless they crash. */
  lemma ClaimIsOlder(cfg: Config, s: Sys, act: Action, r: RawId)
    requires Inv(s) && YoungClaim(cfg, Next(cfg, s, act), r) && !TakesRow(cfg, s, act, r)
    ensures YoungClaim(cfg, s, r) && Next(cfg, s, act).db.raws[r] == s.db.raws[r]
    ensures forall b :: HeldBy(s, r, b) ==> HeldBy(Next(cfg, s, act), r, b) || act == Crash(b)
  {
    if Enabled(cfg, s, act) && act.CommitInsert? {
      assert AgentOk(s.db.raws, s.agents[act.a]);
    }
  }

  lemma {:induction false} OthersNeverEnter(cfg: Config, clock: int, acts: seq<Action>, f: AgentId)
    requires ByOthers(acts, f)
    ensures f !in Exec(cfg, Start(clock), acts).agents
  {
    if acts == [] {
    } else {
      OthersNeverEnter(cfg, clock, acts[..|acts| - 1], f);
    }
  }

  /** The runs end alike, but in t a holder f of the row is still there. */
  ghost predicate WithHolder(s: Sys, t: Sys, r: RawId, f: AgentId) {
    HeldBy(t, r, f) && t == Joined(s, f, t.agents[f])
  }

  lemma MirrorHolds(cfg: Config, s: Sys, t: Sys, r: RawId, b: AgentId, f: AgentId)
    requires Mirrors(s, t, b, f) && f !in s.agents && HeldBy(s, r, b)
    ensures WithHolder(Next(cfg, s, Crash(b)), t, r, f)
  {
    assert t.agents == (s.agents - {b})[f := s.agents[b]];
  }

  /** The holder crashes: in the mirrored run, in which f is in its place, it does not. */
  lemma LeaveCrashOut(cfg: Config, clock: int, init: seq<Action>, r: RawId, b: AgentId, f: AgentId)
    requires LeasedRun(cfg, Start(clock), init) && ByOthers(init, f)
    requires HeldBy(Exec(cfg, Start(clock), init), r, b)
    ensures LeasedRun(cfg, Start(clock), SwappedRun(init, b, f))
    ensures UncontendedRun(cfg, Start(clock), init) ==> UncontendedRun(cfg, Start(clock), SwappedRun(init, b, f))
    ensures WithHolder(Next(cfg, Exec(cfg, Start(clock), init), Crash(b)),
                       Exec(cfg, Start(clock), SwappedRun(init, b, f)), r, f)
  {
    RunMirrors(cfg, clock, init, b, f);
    OthersNeverEnter(cfg, clock, init, f);
    MirrorHolds(cfg, Exec(cfg, Start(clock), init), Exec(cfg, Start(clock), SwappedRun(init, b, f)), r, b, f);
  }

  /** The step goes on beside the holder f. */
  lemma StepBeside(cfg: Config, s: Sys, t: Sys, act: Action, r: RawId, f: AgentId)
    requires WithHolder(s, t, r, f) && f !in s.agents && ByOther(act, f)
    requires YoungClaim(cfg, Next(cfg, s, act), r) && Next(cfg, s, act).db.raws[r] == s.db.raws[r]
    ensures WithHolder(Next(cfg, s, act), Next(cfg, t, act), r, f)
    ensures LeaseHeld(cfg, Next(cfg, s, act)) ==> LeaseHeld(cfg, Next(cfg, t, act))
  {
    var at := t.agents[f];
    NextJoined(cfg, s, act, f, at);
    var t' := Joined(Next(cfg, s, act), f, at);
    assert t'.agents[f] == at;
    assert forall a :: a in t'.agents && a != f ==>
        a in Next(cfg, s, act).agents && t'.agents[a] == Next(cfg, s, act).agents[a];
  }

  /** It takes no other row over than before. */
  lemma TakesOverBeside(cfg: Config, s: Sys, t: Sys, act: Action, r: RawId, f: AgentId)
    requires WithHolder(s, t, r, f) && f !in s.agents && ByOther(act, f) && !TakesRow(cfg, s, act, r)
    ensures TakesOver(cfg, t, act) ==> TakesOver(cfg, s, act)
  {
    if TakesOver(cfg, t, act) {
      EnabledJoined(cfg, s, act, f, t.agents[f]);
      var b :| b in t.agents && t.agents[b].Holder() && t.agents[b].raw == act.raw;
      assert b in s.agents && s.agents[b] == t.agents[b];
    }
  }

  /** The crash has been left out already: the run goes on beside the holder f. */
  lemma GoOnBeside(cfg: Config, clock: int, init: seq<Action>, init': seq<Action>, act: Action, r: RawId, f: AgentId)
    requires LeasedRun(cfg, Start(clock), init + [act]) && LeasedRun(cfg, Start(clock), init')
    requires ByOthers(init + [act], f) && ByOthers(init, f) && ByOther(act, f)
    requires UncontendedRun(cfg, Start(clock), init) ==> UncontendedRun(cfg, Start(clock), init')
    requires WithHolder(Exec(cfg, Start(clock), init), Exec(cfg, Start(clock), init'), r, f)
    requires var s, s' := Exec(cfg, Start(clock), init), Exec(cfg, Start(clock), init + [act]);
             YoungClaim(cfg, s', r) && s'.db.raws[r] == s.db.raws[r] && !TakesRow(cfg, s, act, r)
    ensures LeasedRun(cfg, Start(clock), init' + [act])
    ensures UncontendedRun(cfg, Start(clock), init + [act]) ==> UncontendedRun(cfg, Start(clock), init' + [act])
    ensures WithHolder(Exec(cfg, Start(clock), init + [act]), Exec(cfg, Start(clock), init' + [act]), r, f)
  {
    var s, t := Exec(cfg, Start(clock), init), Exec(cfg, Start(clock), init');
    OthersNeverEnter(cfg, clock, init, f);
    ExecSnoc(cfg, Start(clock), init, act);
    ExecSnoc(cfg, Start(clock), init', act);
    StepBeside(cfg, s, t, act, r, f);
    TakesOverBeside(cfg, s, t, act, r, f);
    LeasedSnoc(cfg, Start(clock), init, act);
    LeasedSnoc(cfg, Start(clock), init', act);
    UncontendedSnoc(cfg, Start(clock), init, act);
    UncontendedSnoc(cfg, Start(clock), init', act);
  }

  /** A young claim has its holder, or a run without the holder's crash ends in the same tables. */
  lemma {:induction false} StillHeld(cfg: Config, clock: int, acts: seq<Action>, r: RawId, f: AgentId)
    returns (acts': seq<Action>, b: AgentId)
    requires LeasedRun(cfg, Start(clock), acts) && ByOthers(acts, f)
    requires YoungClaim(cfg, Exec(cfg, Start(clock), acts), r)
    ensures LeasedRun(cfg, Start(clock), acts')
    ensures UncontendedRun(cfg, Start(clock), acts) ==> UncontendedRun(cfg, Start(clock), acts')
    ensures if b == f then WithHolder(Exec(cfg, Start(clock), acts), Exec(cfg, Start(clock), acts'), r, f)
            else acts' == acts && HeldBy(Exec(cfg, Start(clock), acts), r, b)
  {
    var init, act := acts[..|acts| - 1], acts[|acts| - 1];
    var s := Exec(cfg, Start(clock), init);
    assert acts == init + [act];
    LeasedSnoc(cfg, Start(clock), init, act);
    UncontendedSnoc(cfg, Start(clock), init, act);
    if TakesRow(cfg, s, act, r) {
      return acts, act.a;
    }
    Reachable(cfg, clock, init);
    ClaimIsOlder(cfg, s, act, r);
    acts', b := StillHeld(cfg, clock, init, r, f);
    if b == f {
      GoOnBeside(cfg, clock, init, acts', act, r, f);
      acts' := acts' + [act];
    } else if act == Crash(b) {
      LeaveCrashOut(cfg, clock, init, r, b, f);
      acts', b := SwappedRun(init, b, f), f;
    } else {
      acts' := acts;
    }
  }

  lemma {:induction false} SomeNewAgent(acts: seq<Action>) returns (f: AgentId)
    ensures forall i :: 0 <= i < |acts| ==> ByOther(acts[i], f) && (acts[i].Tick? || acts[i].Reap? || acts[i].a < f)
  {
    if acts == [] {
      f := 0;
    } else {
      var act := acts[|acts| - 1];
      f := SomeNewAgent(acts[..|acts| - 1]);
      if !act.Tick? && !act.Reap? && act.a >= f {
        f := act.a + 1;
      }
    }
  }

  /**
   * The row can show no more: whenever a leased run ends with a row that does not show it is unheld, some leased run,
   * one without take-over if the given one is, ends in the same tables at the same time with a live holder of the row.
   */
  lemma NotShownMayBeHeld(cfg: Config, clock: int, acts: seq<Action>, r: RawId) returns (acts': seq<Action>)
    requires LeasedRun(cfg, Start(clock), acts) && r in Exec(cfg, Start(clock), acts).db.raws
    requires var s := Exec(cfg, Start(clock), acts); !ShownUnheld(cfg, s.db.raws[r], s.clock)
    ensures LeasedRun(cfg, Start(clock), acts')
    ensures UncontendedRun(cfg, Start(clock), acts) ==> UncontendedRun(cfg, Start(clock), acts')
    ensures var s, s' := Exec(cfg, Start(clock), acts), Exec(cfg, Start(clock), acts');
            s'.db == s.db && s'.clock == s.clock && HasLiveHolder(s', r)
  {
    Reachable(cfg, clock, acts);
    assert RowOk(Exec(cfg, Start(clock), acts).db.raws[r]);
    var f := SomeNewAgent(acts);
    var b;
    acts', b := StillHeld(cfg, clock, acts, r, f);
    assert HeldBy(Exec(cfg, Start(clock), acts'), r, b);
  }
}
