/** Whom a DELETE hits.  A cleaner that has read its row deletes the VM of that name whatever
    has become of the name since; exactly which steps keep it away from a VM in use. */
module WorkspaceDeletions {
  import opened Options
  import opened Workspace
  import opened WorkspaceRuns
  import opened WorkspaceSafety
  import opened WorkspacePaths
  import opened WorkspaceRaces

  /** The VM that a cleaner has claimed and not yet deleted. */
  function ToDelete(p: Proc): Option<LabId> {
    match p
    case ReadProvision(l) => Some(l)
    case DeleteVm(l, _) => Some(l)
    case _ => None
  }

  predicate NobodyDeletes(s: State, l: LabId) {
    forall pid <- s.procs :: ToDelete(s.procs[pid]) != Some(l)
  }

  /** A name is reserved again only when no cleaner is about to delete its VM. */
  predicate Sparing(s: State, a: Action) {
    ReservesAgain(s, a) ==> NobodyDeletes(s, NameReserved(s, a).value)
  }

  predicate SparingRun(s: State, run: seq<Action>)
    decreases |run|
  {
    run != [] ==> Sparing(s, run[0]) && SparingRun(Step(s, run[0]), run[1..])
  }

  /** The service (Labs losing a VM is not its doing) deletes the VM of no workspace, unless
      that workspace is being reset. */
  ghost predicate SparesInUse(s: State, a: Action) {
    !a.LabsLoses? ==>
      forall l, w | l in s.live && l !in Step(s, a).live && Holds(s, w, l) :: HasStatus(s, w, Resetting)
  }

  ghost predicate CleanersOk(s: State) {
    forall pid <- s.procs :: ToDelete(s.procs[pid]).Some? ==> Doomed(s, ToDelete(s.procs[pid]).value)
  }

  // ----- sparing steps -----

  lemma DoomedStays(s: State, a: Action, pid: Pid)
    requires Basic(s) && CleanersOk(s) && Sparing(s, a) && pid in s.procs && ToDelete(s.procs[pid]).Some?
    ensures Doomed(Step(s, a), ToDelete(s.procs[pid]).value)
  {
    hide Basic, Step, NameReserved;
    StepKeepsDoomed(s, a, ToDelete(s.procs[pid]).value);
  }

  /** A process comes to delete a VM by claiming its row, or by going on. */
  lemma DeleterComesFrom(s: State, p: Proc, ok: bool, w: Option<WorkspaceId>)
    ensures var m := MoveOf(s, p, ok, w);
            m.next.Some? && ToDelete(m.next.value).Some? ==>
              var l := ToDelete(m.next.value).value;
              ToDelete(p) == Some(l)
              || (m.write.PutProvision? && m.write.l == l && m.write.provision.claimed)
  {
    hide Finds, Current, Awaits, HasStatus;
  }

  lemma FirstDeletesNothing(s: State, r: Request)
    ensures FirstMove(s, r).Some? ==> ToDelete(FirstMove(s, r).value).None?
  {
  }

  lemma StepKeepsCleaners(s: State, a: Action)
    requires Basic(s) && CleanersOk(s) && Sparing(s, a)
    ensures CleanersOk(Step(s, a))
  {
    hide TablesBasic, ProcBasic, MoveOf, FirstMove, Sparing, RestartTx, Doomed, ToDelete;
    var t := Step(s, a);
    StepKeepsBasic(s, a);
    if a.Begin? {
      FirstDeletesNothing(s, a.request);
    } else if a.Restart? {
      RestartSparesLabs(s, a.e, a.w);
    }
    forall pid <- t.procs | ToDelete(t.procs[pid]).Some? ensures Doomed(t, ToDelete(t.procs[pid]).value) {
      if pid in s.procs && ToDelete(s.procs[pid]) == ToDelete(t.procs[pid]) {
        DoomedStays(s, a, pid);
      } else {
        NewDeleter(s, a, pid);
      }
    }
  }

  lemma NewDeleter(s: State, a: Action, pid: Pid)
    requires Basic(s) && Basic(Step(s, a)) && pid in Step(s, a).procs && ToDelete(Step(s, a).procs[pid]).Some?
    requires !(pid in s.procs && ToDelete(s.procs[pid]) == ToDelete(Step(s, a).procs[pid]))
    ensures Doomed(Step(s, a), ToDelete(Step(s, a).procs[pid]).value)
  {
    hide TablesBasic, ProcBasic, MoveOf, FirstMove, RestartTx, Doomed, ToDelete;
    var t := Step(s, a);
    match a
    case Advance(q, ok, w) =>
      if q in s.procs {
        ApplyKeepsProcs(s, MoveOf(s, s.procs[q], ok, w).write);
        DeleterComesFrom(s, s.procs[q], ok, w);
        ClaimedIsDoomed(t, ToDelete(t.procs[pid]).value);
      }
    case Begin(_, r) => FirstDeletesNothing(s, r);
    case Restart(e, w) => RestartSparesLabs(s, e, w);
    case _ =>
  }

  lemma {:induction false} SparingRunKeepsCleaners(s: State, run: seq<Action>)
    requires Basic(s) && CleanersOk(s) && SparingRun(s, run)
    ensures Basic(Run(s, run)) && CleanersOk(Run(s, run))
    decreases |run|
  {
    hide Basic, CleanersOk, Step, Sparing;
    if run != [] {
      StepKeepsBasic(s, run[0]);
      StepKeepsCleaners(s, run[0]);
      SparingRunKeepsCleaners(Step(s, run[0]), run[1..]);
    }
  }

  // ----- nothing in use is deleted -----

  lemma OnlyDeletersKill(s: State, p: Proc, ok: bool, w: Option<WorkspaceId>)
    ensures var x := MoveOf(s, p, ok, w).write;
            x.KillVm? ==> (p.DeleteVm? || p.ResetDelete?) && p.l == x.l
  {
    hide Finds, Current, Awaits, HasStatus;
  }

  lemma CleanersSpareInUse(s: State, a: Action)
    requires Basic(s) && CleanersOk(s)
    ensures SparesInUse(s, a)
  {
    hide NamesOk, RowsApart, MoveOf, FirstMove, RestartTx;
    if a.Advance? && a.pid in s.procs {
      var p := s.procs[a.pid];
      assert ProcBasic(s, p);
      OnlyDeletersKill(s, p, a.ok, a.w);
      forall l, w | l in s.live && l !in Step(s, a).live && Holds(s, w, l) ensures HasStatus(s, w, Resetting) {
        RowIsBasic(s, w);
      }
    } else if a.Restart? {
      RestartSparesLabs(s, a.e, a.w);
    }
  }

  /** This service never deletes the VM of a workspace that is in use, in any run that
      reserves no name again while a cleaner is about to delete its VM. */
  lemma DeletesSpareWorkspacesInUse(run: seq<Action>, a: Action)
    requires SparingRun(INITIAL, run)
    ensures SparesInUse(Run(INITIAL, run), a)
  {
    hide Run, Basic, SparesInUse;
    InitialIsBasic();
    SparingRunKeepsCleaners(INITIAL, run);
    CleanersSpareInUse(Run(INITIAL, run), a);
  }

  // ----- and otherwise one can be -----

  lemma {:induction false} StrictIsSparing(s: State, run: seq<Action>)
    requires StrictRun(s, run)
    ensures SparingRun(s, run)
    decreases |run|
  {
    hide Step, ReservesAgain, DeclaresLiveMissing, NobodyDeletes;
    if run != [] {
      StrictIsSparing(Step(s, run[0]), run[1..]);
    }
  }

  /** The row of `b` is attached while another process stands still. */
  lemma PosterReachesRunning(s: State, b: Pid, l: LabId) returns (t: State)
    requires b in s.procs && s.procs[b] == Posting(l) && Awaits(s, l.workspace, l.generation)
    requires l in s.provisions && !s.provisions[l].claimed && l in s.posts && s.posts[l] == Open
    ensures Reaches(s, t) && Holds(t, l.workspace, l) && HasStatus(t, l.workspace, Running)
    ensures l in t.live && l !in t.provisions && t.procs == s.procs - {b}
  {
    hide Reaches, Step, Strict;
    var s1 := s.(posts := s.posts[l := Made], live := s.live + {l});
    PostIsMade(s, l);
    ReachesStep(s, LabsMakes(l), s1);
    PostingToSettle(s1, l, b);
    assert Goto(s1, b, Posting(l)) == s1 by { assert s1.procs[b := Posting(l)] == s1.procs; }
    var s2 := Goto(s1, b, Settle(l));
    ReachesAfter(s, s1, Go(b), s2);
    SettleToAttach(s1, l, b);
    var u := s1.(provisions := s.provisions[l := s.provisions[l].(settled := true)]);
    GotoOverrides(u, b, Settle(l), Attach(l));
    var s3 := Goto(u, b, Attach(l));
    assert s2.(provisions := u.provisions) == Goto(u, b, Settle(l));
    ReachesAfter(s, s2, Go(b), s3);
    AttachAttaches(u, l, b);
    var row := s.workspaces[l.workspace].(status := Running, startedAt := None, labId := Some(l));
    t := Exit(s3.(provisions := u.provisions - {l}, workspaces := s.workspaces[l.workspace := row]), b);
    ReachesAfter(s, s3, Go(b), t);
    assert s.procs[b := Attach(l)] - {b} == s.procs - {b};
  }

  lemma DeleteHits(s: State, c: Pid, w: WorkspaceId, l: LabId, saw: bool)
    requires c in s.procs && s.procs[c] == DeleteVm(l, saw) && l in s.live && Holds(s, w, l) && HasStatus(s, w, Running)
    ensures !SparesInUse(s, Go(c)) && Strict(s, Go(c)) && l !in Step(s, Go(c)).live
  {
    var t := Step(s, Go(c));
    assert t.live == s.live - {l};
  }

  lemma ReadToDelete(s: State, c: Pid, l: LabId)
    requires c in s.procs && s.procs[c] == ReadProvision(l)
    ensures var saw := l in s.provisions && s.provisions[l].settled;
            Strict(s, Go(c)) && Step(s, Go(c)) == Goto(s, c, DeleteVm(l, saw))
  {
  }

  /** The VM of a RUNNING workspace is deleted by a cleaner that claimed an earlier row. */
  lemma CleanerHits(s: State, b: Pid, c: Pid, l: LabId) returns (t: State)
    requires b in s.procs && s.procs[b] == Posting(l) && Awaits(s, l.workspace, l.generation)
    requires l in s.provisions && !s.provisions[l].claimed && l in s.posts && s.posts[l] == Open
    requires c in s.procs && ToDelete(s.procs[c]) == Some(l)
    ensures Reaches(s, t) && HasStatus(t, l.workspace, Running) && Holds(t, l.workspace, l)
    ensures Strict(t, Go(c)) && !SparesInUse(t, Go(c)) && l in t.live && l !in Step(t, Go(c)).live
  {
    hide Reaches, Step, Strict, SparesInUse;
    t := PosterReachesRunning(s, b, l);
    assert c in t.procs && t.procs[c] == s.procs[c];
    if s.procs[c].ReadProvision? {
      ReadToDelete(t, c, l);
      var u := Goto(t, c, DeleteVm(l, false));
      ReachesAfter(s, t, Go(c), u);
      t := u;
    }
    DeleteHits(t, c, l.workspace, l, t.procs[c].sawSettled);
  }

  lemma SecondReservationHits(s: State, b: Pid, c: Pid, l: LabId) returns (t: State)
    requires SecondReservation(s, b, l) && c in s.procs && ToDelete(s.procs[c]) == Some(l)
    ensures Reaches(Step(s, Go(b)), t) && HasStatus(t, l.workspace, Running) && Holds(t, l.workspace, l)
    ensures Strict(t, Go(c)) && !SparesInUse(t, Go(c)) && l in t.live && l !in Step(t, Go(c)).live
  {
    hide Reaches, Step, Strict, SparesInUse, NameReserved;
    ReserveAgain(s, b, l);
    var u := Step(s, Go(b));
    assert u.procs[c] == s.procs[c];
    t := CleanerHits(u, b, c, l);
  }

  /** All later steps of sparing runs spare workspaces in use. */
  ghost predicate WillSpareInUse(t: State) {
    forall run, a :: SparingRun(t, run) && Sparing(Run(t, run), a) ==> SparesInUse(Run(t, run), a)
  }

  lemma RefutesSparing(t: State, u: State, a: Action)
    requires Reaches(t, u) && Strict(u, a) && !SparesInUse(u, a)
    ensures !WillSpareInUse(t)
  {
    hide Run, StrictRun, SparesInUse, NobodyDeletes, NameReserved;
    var run: seq<Action> :| StrictRun(t, run) && Run(t, run) == u;
    StrictIsSparing(t, run);
    assert SparingRun(t, run) && Sparing(Run(t, run), a) && !SparesInUse(Run(t, run), a);
  }

  lemma SparingIsSpared(s: State, a: Action, run: seq<Action>, b: Action)
    requires Basic(s) && CleanersOk(s) && Sparing(s, a) && SparingRun(Step(s, a), run)
    ensures SparesInUse(Run(Step(s, a), run), b)
  {
    hide Basic, CleanersOk, Step, Run, Sparing, SparesInUse;
    StepKeepsBasic(s, a);
    StepKeepsCleaners(s, a);
    SparingRunKeepsCleaners(Step(s, a), run);
    CleanersSpareInUse(Run(Step(s, a), run), b);
  }

  /** No VM in use is ever deleted, in every sparing continuation of a step, if and only if the
      step is sparing itself. */
  lemma SparingIsExact(s: State, a: Action)
    requires Basic(s) && CleanersOk(s)
    ensures Sparing(s, a) <==> WillSpareInUse(Step(s, a))
  {
    hide Basic, CleanersOk, Step, Run, Sparing, SparingRun, SparesInUse;
    if Sparing(s, a) {
      forall run, b | SparingRun(Step(s, a), run) && Sparing(Run(Step(s, a), run), b)
        ensures SparesInUse(Run(Step(s, a), run), b)
      {
        SparingIsSpared(s, a, run, b);
      }
    } else {
      UnsparingHits(s, a);
    }
  }

  lemma UnsparingHits(s: State, a: Action)
    requires !Sparing(s, a)
    ensures !WillSpareInUse(Step(s, a))
  {
    hide Step, Reaches, Strict, SparesInUse, WillSpareInUse, NameReserved;
    var l := NameReserved(s, a).value;
    var c :| c in s.procs && ToDelete(s.procs[c]) == Some(l);
    SameReservation(s, a);
    var t := SecondReservationHits(s, a.pid, c, l);
    RefutesSparing(Step(s, a), t, Go(c));
  }

  /** Exactly when does reserving a name a second time endanger no VM in use?  If and only if
      no cleaner stands between claiming the first row and deleting the VM of that name. */
  lemma SecondReservationSparesIff(s: State, pid: Pid, l: LabId)
    requires Basic(s) && CleanersOk(s) && SecondReservation(s, pid, l)
    ensures WillSpareInUse(Step(s, Go(pid))) <==> NobodyDeletes(s, l)
  {
    hide Basic, CleanersOk, Step, WillSpareInUse, NameReserved;
    SparingIsExact(s, Go(pid));
  }

  /** A strict run leaves alone every name that was ever reserved. */
  lemma {:induction false} StrictLeavesName(s: State, run: seq<Action>, l: LabId)
    requires Basic(s) && StrictRun(s, run) && l in s.reservedFor
    ensures LeavesName(s, run, l)
    decreases |run|
  {
    hide Basic, Step, DeclaresLiveMissing, NameReserved;
    if run != [] {
      StepKeepsBasic(s, run[0]);
      StrictLeavesName(Step(s, run[0]), run[1..], l);
    }
  }

  lemma AttachedAgain(s: State, a: Action, l: LabId)
    requires Basic(s) && NameReserved(s, a) == Some(l) && l in s.reservedFor
    ensures exists run :: LeavesName(Step(s, a), run, l) && Holds(Run(Step(s, a), run), l.workspace, l)
  {
    hide Step, NameReserved, Basic, Run, StrictRun, LeavesName;
    SameReservation(s, a);
    ReserveAgain(s, a.pid, l);
    StepKeepsBasic(s, a);
    var t := PosterReachesRunning(Step(s, a), a.pid, l);
    var run: seq<Action> :| StrictRun(Step(s, a), run) && Run(Step(s, a), run) == t;
    StrictLeavesName(Step(s, a), run, l);
  }

  lemma StaysUnattached(s: State, a: Action, l: LabId, run: seq<Action>)
    requires Basic(s) && Doomed(s, l) && NameReserved(s, a) != Some(l) && LeavesName(Step(s, a), run, l)
    ensures !Holds(Run(Step(s, a), run), l.workspace, l)
  {
    hide Step, NameReserved, Basic, Run, LeavesName;
    StepKeepsDoomed(s, a, l);
    StepKeepsBasic(s, a);
    RunKeepsDoomed(Step(s, a), run, l);
  }

  /** A claimed VM stays unattached in every run that leaves its name alone afterwards, if and
      only if this step does not reserve the name. */
  lemma ClaimedStaysUnattachedIff(s: State, a: Action, l: LabId)
    requires Basic(s) && Doomed(s, l)
    ensures (forall run | LeavesName(Step(s, a), run, l) :: !Holds(Run(Step(s, a), run), l.workspace, l))
            <==> NameReserved(s, a) != Some(l)
  {
    hide Step, NameReserved, Basic, Run, LeavesName, Holds;
    if NameReserved(s, a) == Some(l) {
      AttachedAgain(s, a, l);
    } else {
      forall run | LeavesName(Step(s, a), run, l) ensures !Holds(Run(Step(s, a), run), l.workspace, l) {
        StaysUnattached(s, a, l, run);
      }
    }
  }

  // ----- the code really does delete a VM in use -----

  lemma ClaimAgain(s: State, l: LabId, c: Pid)
    requires l in s.provisions && s.provisions[l].claimed && s.provisions[l].cleanupAt <= s.now && c !in s.procs
    ensures var row := s.provisions[l].(claimed := true, cleanupAt := s.now + RESET_RETRY_MS);
            Reaches(s, Goto(s.(provisions := s.provisions[l := row]), c, ReadProvision(l)))
  {
    hide Reaches;
    BeginIsStrict(s, c, CleanupRequest(l));
    var s1 := Goto(s, c, Claim(l));
    ReachesStep(s, Begin(c, CleanupRequest(l)), s1);
    var row := s.provisions[l].(claimed := true, cleanupAt := s.now + RESET_RETRY_MS);
    var u := s.(provisions := s.provisions[l := row]);
    GotoOverrides(u, c, Claim(l), ReadProvision(l));
    ReachesAfter(s, s1, Go(c), Goto(u, c, ReadProvision(l)));
  }

  /** A second cleaner drops a row that a first one claimed and then stalled on. */
  lemma SecondCleanerDrops(s: State, l: LabId, c: Pid) returns (t: State)
    requires l in s.provisions && s.provisions[l].claimed && s.provisions[l].settled && c !in s.procs
    requires s.provisions[l].cleanupAt == s.now + RESET_RETRY_MS
    ensures Reaches(s, t) && t.procs == s.procs && l !in t.provisions && l !in t.live
    ensures t == s.(provisions := s.provisions - {l}, live := s.live - {l}, now := t.now)
  {
    hide Reaches, Step, Strict;
    var s1 := s.(now := s.now + RESET_RETRY_MS);
    TickSteps(s, RESET_RETRY_MS);
    ReachesStep(s, Tick(RESET_RETRY_MS), s1);
    ClaimAgain(s1, l, c);
    var row := s1.provisions[l].(claimed := true, cleanupAt := s1.now + RESET_RETRY_MS);
    var u := s1.(provisions := s1.provisions[l := row]);
    ReachesTransitive(s, s1, Goto(u, c, ReadProvision(l)));
    ReadToDelete(Goto(u, c, ReadProvision(l)), c, l);
    GotoOverrides(u, c, ReadProvision(l), DeleteVm(l, true));
    ReachesAfter(s, Goto(u, c, ReadProvision(l)), Go(c), Goto(u, c, DeleteVm(l, true)));
    CleanupDrops(u, l, c);
    t := u.(provisions := u.provisions - {l}, live := u.live - {l});
    assert u.provisions - {l} == s.provisions - {l};
    ReachesTransitive(s, Goto(u, c, DeleteVm(l, true)), t);
  }

  /** The first task finds its row gone and gives up. */
  lemma AttachGivesUp(s: State, b: Pid, l: LabId)
    requires b in s.procs && s.procs[b] == Attach(l) && l !in s.provisions
    ensures Reaches(s, Exit(s, b))
  {
    hide Reaches;
    var s1 := Goto(s, b, Claim(l));
    ReachesStep(s, Go(b), s1);
    GotoOverrides(s, b, Claim(l), Claim(l));
    ReachesAfter(s, s1, Go(b), Exit(s, b));
  }

  /** A second request is about to reserve the name of a VM that a stalled cleaner will delete. */
  lemma StalledCleanerIsReachable() returns (t: State)
    ensures Reaches(INITIAL, t) && SecondReservation(t, 1, LabId(0, 2)) && Forgotten(t, LabId(0, 2))
    ensures 3 in t.procs && ToDelete(t.procs[3]) == Some(LabId(0, 2))
  {
    hide Reaches, Step, Strict;
    var l := LabId(0, 2);
    var s2 := TaskIsAboutToAttach();
    var s3 := ClaimReaches(s2, l, 3);
    ReachesTransitive(INITIAL, s2, s3);
    var s4 := SecondCleanerDrops(s3, l, 4);
    ReachesTransitive(INITIAL, s3, s4);
    AttachGivesUp(s4, 2, l);
    t := Exit(s4, 2);
    ReachesTransitive(INITIAL, s4, t);
    assert t.procs == map[1 := Schedule(0, 0, 2, 0), 3 := ReadProvision(l)];
  }

  /** A run of the code, in which no VM is lost, at the end of which a cleaner deletes the VM
      of a RUNNING workspace. */
  lemma VmInUseCanBeDeleted()
    ensures exists run, a, w, l ::
              && FencedRun(INITIAL, run) && Fenced(Run(INITIAL, run), a) && !a.LabsLoses?
              && l in Run(INITIAL, run).live && l !in Step(Run(INITIAL, run), a).live
              && Holds(Run(INITIAL, run), w, l) && HasStatus(Run(INITIAL, run), w, Running)
  {
    hide Step, Reaches, Strict, NameReserved;
    var l := LabId(0, 2);
    var s := StalledCleanerIsReachable();
    var t := SecondReservationHits(s, 1, 3, l);
    FencedAgain(s, 1, l);
    assert FencedReach(INITIAL, t) by {
      StrictReachIsFenced(INITIAL, s);
      StrictReachIsFenced(Step(s, Go(1)), t);
      FencedReachJoins(INITIAL, s, Go(1), t);
    }
    var run: seq<Action> :| FencedRun(INITIAL, run) && Run(INITIAL, run) == t;
    StrictIsFencedOnce(t, Go(3));
    assert Holds(Run(INITIAL, run), 0, l) && HasStatus(Run(INITIAL, run), 0, Running);
  }

  lemma FencedAgain(s: State, pid: Pid, l: LabId)
    requires SecondReservation(s, pid, l) && Forgotten(s, l)
    ensures Fenced(s, Go(pid))
  {
    hide MoveOf;
    OnlyScheduleReserves(s, s.procs[pid], true, None);
  }

  lemma StrictIsFencedOnce(s: State, a: Action)
    requires Strict(s, a)
    ensures Fenced(s, a)
  {
  }

  ghost predicate FencedReach(s: State, t: State) {
    exists run: seq<Action> :: FencedRun(s, run) && Run(s, run) == t
  }

  lemma StrictReachIsFenced(s: State, t: State)
    requires Reaches(s, t)
    ensures FencedReach(s, t)
  {
    hide StrictRun, FencedRun, Run;
    var run: seq<Action> :| StrictRun(s, run) && Run(s, run) == t;
    StrictIsFenced(s, run);
  }

  lemma {:induction false} FencedAppend(s: State, a: seq<Action>, b: seq<Action>)
    ensures FencedRun(s, a + b) <==> FencedRun(s, a) && FencedRun(Run(s, a), b)
    decreases |a|
  {
    hide Fenced, Step;
    if a == [] {
      assert a + b == b;
    } else {
      assert (a + b)[0] == a[0] && (a + b)[1..] == a[1..] + b;
      FencedAppend(Step(s, a[0]), a[1..], b);
    }
  }

  lemma FencedReachJoins(s: State, t: State, a: Action, u: State)
    requires FencedReach(s, t) && Fenced(t, a) && FencedReach(Step(t, a), u)
    ensures FencedReach(s, u)
  {
    hide Step, Fenced;
    var first: seq<Action> :| FencedRun(s, first) && Run(s, first) == t;
    var second: seq<Action> :| FencedRun(Step(t, a), second) && Run(Step(t, a), second) == u;
    var rest := [a] + second;
    assert rest[1..] == second;
    FencedAppend(s, first, rest);
    RunAppend(s, first, rest);
    assert FencedRun(s, first + rest) && Run(s, first + rest) == u;
  }
}
