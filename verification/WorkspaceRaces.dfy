/** The hypotheses `Fenced` and `Careful` are exact: a step is safe for every later run if
    and only if it obeys them.  And the code does take steps that do not. */
module WorkspaceRaces {
  import opened Options
  import opened Workspace
  import opened WorkspaceRuns
  import opened WorkspaceSafety
  import opened WorkspacePaths

  // ----- losing a VM -----

  /** An ERROR row whose VM is alive and has no provision row: only the row names it,
      and the next `create` on that row overwrites the name. */
  predicate LosesItsVm(s: State, w: WorkspaceId) {
    && HasStatus(s, w, Error) && s.workspaces[w].enrollment in s.enrollments
    && s.workspaces[w].labId.Some?
    && s.workspaces[w].labId.value in s.live && s.workspaces[w].labId.value !in s.provisions
    && s.workspaces[w].labId.value.workspace == w
    && s.workspaces[w].labId.value.generation <= s.workspaces[w].generation
    && LabId(w, s.workspaces[w].generation + 1) !in s.reservedFor
    && LabId(w, s.workspaces[w].generation + 1) !in s.provisions
  }

  lemma LiveErrorRowLosesItsVm(s: State, w: WorkspaceId)
    requires LosesItsVm(s, w)
    ensures exists t :: Reaches(s, t) && !NoVmLost(t)
  {
    hide Reaches, Step, Strict;
    var e := s.workspaces[w].enrollment;
    var pid := Fresh(s.procs);
    var s0 := s.(enrollments := s.enrollments[e := Enrollment(s.enrollments[e].generation, true)]);
    EnrollSteps(s, e);
    ReachesStep(s, Enroll(e), s0);
    ReviveReaches(s0, w, pid);
    var s1 := Revived(s0, w);
    var eg := s.enrollments[e].generation;
    var s1p := Goto(s1, pid, Schedule(w, e, s1.workspaces[w].generation, eg));
    ReachesTransitive(s, s0, s1p);
    ProvisionReaches(s1, w, pid, eg);
    var t := Provisioned(s1, w, eg);
    ReachesTransitive(s, s1p, t);
    assert s.workspaces[w].labId.value in t.live;
  }

  /** The update that follows a "missing" observation, taking effect on its row. */
  predicate ActsOnMissing(s: State, pid: Pid, w: WorkspaceId) {
    && pid in s.procs
    && ((s.procs[pid].MarkMissing? && s.procs[pid].w == w && HasStatus(s, w, Running))
        || (s.procs[pid].Rebuild? && s.procs[pid].w == w && HasStatus(s, w, Stopped)))
    && s.workspaces[w].labId.Some?
  }

  lemma UnfencedUpdate(s: State, pid: Pid, w: WorkspaceId)
    requires ActsOnMissing(s, pid, w)
    ensures Step(s, Go(pid)) ==
            if s.procs[pid].MarkMissing? then Exit(SetStatus(s, w, Error), pid)
            else Goto(Revived(s, w), pid, Reread(w, s.procs[pid].eg, s.workspaces[w].generation + 1))
  {
  }

  lemma UnsafeWhenAlive(s: State, pid: Pid, w: WorkspaceId)
    requires Inv(s) && ActsOnMissing(s, pid, w)
    requires s.workspaces[w].labId.value in s.live
    ensures exists t :: Reaches(Step(s, Go(pid)), t) && !NoVmLost(t)
  {
    hide Step, Reaches, ProcBasic, PostsOk;
    UnfencedUpdate(s, pid, w);
    RowIsBasic(s, w);
    var t := Step(s, Go(pid));
    if s.procs[pid].MarkMissing? {
      LiveErrorRowLosesItsVm(t, w);
    } else {
      CreatingRowCanExpire(t, w);
      var u := Expired(t, w);
      LiveErrorRowLosesItsVm(u, w);
      var v :| Reaches(u, v) && !NoVmLost(v);
      ReachesTransitive(t, u, v);
    }
  }

  // ----- reserving a name again -----

  /** `pid` is about to reserve `l`, which was reserved before. */
  predicate SecondReservation(s: State, pid: Pid, l: LabId) {
    NameReserved(s, Go(pid)) == Some(l) && l in s.reservedFor
  }

  lemma ReserveAgain(s: State, b: Pid, l: LabId)
    requires SecondReservation(s, b, l)
    ensures b in s.procs && s.procs[b].Schedule? && Awaits(s, l.workspace, l.generation) && l !in s.provisions
    ensures Step(s, Go(b)) == Goto(Reserved(s, l, s.procs[b].eg), b, Posting(l))
  {
    hide MoveOf;
    OnlyScheduleReserves(s, s.procs[b], true, None);
  }

  /** What is left of the first VM when its name is reserved again: nothing. */
  lemma FirstVmIsGone(s: State, b: Pid, l: LabId)
    requires Inv(s) && SecondReservation(s, b, l)
    ensures l !in s.live && !Holds(s, l.workspace, l) && s.workspaces[l.workspace].enrollment in s.enrollments
    ensures LabId(l.workspace, l.generation + 1) !in s.reservedFor
    ensures LabId(l.workspace, l.generation + 1) !in s.provisions
  {
    hide Step, MoveOf;
    ReserveAgain(s, b, l);
    RowIsBasic(s, l.workspace);
    NameIsFree(s, l);
  }

  /** An old attempt attaches the second one's row while the new POST is open; the VM is
      then taken for missing, and arrives later. */
  lemma AttachLosesAVm(s: State, a: Pid, b: Pid, l: LabId)
    requires Inv(s) && SecondReservation(s, b, l) && a in s.procs && s.procs[a] == Attach(l)
    ensures exists t :: Reaches(Step(s, Go(b)), t) && !NoVmLost(t)
  {
    hide Reaches, Step, Strict, Basic, PostsOk, VmsOk, NameReserved;
    var w := l.workspace;
    FirstVmIsGone(s, b, l);
    ReserveAgain(s, b, l);
    var s1 := Step(s, Go(b));
    AttachAttaches(s1, l, a);
    var row := s1.workspaces[w].(status := Running, startedAt := None, labId := Some(l));
    assert Goto(s1, a, Attach(l)) == s1 by { assert s1.procs[a := Attach(l)] == s1.procs; }
    var s2 := Exit(s1.(provisions := s1.provisions - {l}, workspaces := s1.workspaces[w := row]), a);
    ReachesStep(s1, Go(a), s2);
    StopReaches(s2, w, l);
    var s3 := SetStatus(s2, w, Error);
    ReachesTransitive(s1, s2, s3);
    PostIsMade(s3, l);
    var s4 := s3.(posts := s3.posts[l := Made], live := s3.live + {l});
    ReachesAfter(s1, s3, LabsMakes(l), s4);
    LiveErrorRowLosesItsVm(s4, w);
    var t :| Reaches(s4, t) && !NoVmLost(t);
    ReachesTransitive(s1, s4, t);
  }

  /** A fresh provision row whose POST is open. */
  predicate AwaitsPost(s: State, l: LabId) {
    && l in s.provisions && !s.provisions[l].claimed
    && l in s.posts && s.posts[l] == Open && !Holds(s, l.workspace, l)
  }

  lemma DropStepDrops(s: State, a: Pid, l: LabId)
    requires l in s.provisions && s.provisions[l].claimed
    requires a in s.procs && s.procs[a] == DropProvision(l, true)
    ensures Strict(s, Go(a)) && Step(s, Go(a)) == Exit(s.(provisions := s.provisions - {l}), a)
  {
  }

  /** The row of the open POST is claimed, and an old cleaner drops it. */
  lemma DropLosesAVm(s: State, a: Pid, l: LabId)
    requires AwaitsPost(s, l) && a in s.procs && s.procs[a] == DropProvision(l, true)
    ensures exists t :: Reaches(s, t) && !NoVmLost(t)
  {
    hide Reaches;
    var c := Fresh(s.procs);
    var s1 := ClaimReaches(s, l, c);
    DropStepDrops(s1, a, l);
    var t := Exit(s1.(provisions := s1.provisions - {l}), a);
    ReachesAfter(s, s1, Go(a), t);
    assert t.posts[l] == Open && l !in t.provisions && !Holds(t, l.workspace, l);
  }

  ghost function ClaimReaches(s: State, l: LabId, c: Pid): (t: State)
    requires l in s.provisions && !s.provisions[l].claimed && c !in s.procs
    ensures Reaches(s, t)
    ensures t == Goto(s.(provisions := t.provisions), c, ReadProvision(l))
    ensures t.provisions == s.provisions[l := s.provisions[l].(claimed := true, cleanupAt := s.now + RESET_RETRY_MS)]
  {
    BeginIsStrict(s, c, CleanupRequest(l));
    var s1 := Goto(s, c, Claim(l));
    ReachesStep(s, Begin(c, CleanupRequest(l)), s1);
    var row := s.provisions[l].(claimed := true, cleanupAt := s.now + RESET_RETRY_MS);
    var u := s.(provisions := s.provisions[l := row]);
    GotoOverrides(u, c, Claim(l), ReadProvision(l));
    var t := Goto(u, c, ReadProvision(l));
    ReachesAfter(s, s1, Go(c), t);
    t
  }

  lemma ConfirmLosesAVm(s: State, a: Pid, l: LabId)
    requires AwaitsPost(s, l) && l !in s.live && a in s.procs && s.procs[a] == ConfirmVm(l, true)
    ensures exists t :: Reaches(s, t) && !NoVmLost(t)
  {
    hide Reaches;
    var u := Goto(s, a, DropProvision(l, true));
    ReachesStep(s, Go(a), u);
    DropLosesAVm(u, a, l);
    var t :| Reaches(u, t) && !NoVmLost(t);
    ReachesTransitive(s, u, t);
  }

  lemma DeleteLosesAVm(s: State, a: Pid, l: LabId)
    requires AwaitsPost(s, l) && a in s.procs && s.procs[a] == DeleteVm(l, true)
    ensures exists t :: Reaches(s, t) && !NoVmLost(t)
  {
    hide Reaches;
    var u := Goto(s.(live := s.live - {l}), a, ConfirmVm(l, true));
    ReachesStep(s, Go(a), u);
    ConfirmLosesAVm(u, a, l);
    var t :| Reaches(u, t) && !NoVmLost(t);
    ReachesTransitive(s, u, t);
  }

  lemma RecalledNameLosesAVm(s: State, a: Pid, b: Pid, l: LabId)
    requires Inv(s) && SecondReservation(s, b, l) && a in s.procs && Recalls(s.procs[a], l)
    ensures exists t :: Reaches(Step(s, Go(b)), t) && !NoVmLost(t)
  {
    hide Reaches, Step, Basic, PostsOk, VmsOk, NameReserved;
    if s.procs[a] == Attach(l) {
      AttachLosesAVm(s, a, b, l);
    } else {
      FirstVmIsGone(s, b, l);
      ReserveAgain(s, b, l);
      var u := Step(s, Go(b));
      assert AwaitsPost(u, l) && u.procs[a] == s.procs[a];
      match s.procs[a]
      case DropProvision(_, _) => DropLosesAVm(u, a, l);
      case ConfirmVm(_, _) => ConfirmLosesAVm(u, a, l);
      case DeleteVm(_, _) => DeleteLosesAVm(u, a, l);
    }
  }

  // ----- the hypotheses are exact -----

  lemma UnfencedUpdates(s: State, a: Action)
    requires Basic(s) && DeclaresLiveMissing(s, a)
    ensures a.Advance? && a.pid in s.procs && ActsOnMissing(s, a.pid, s.procs[a.pid].w) && CarriesLive(s, s.procs[a.pid].w)
    ensures Step(s, a) == Step(s, Go(a.pid))
  {
  }

  lemma SameReservation(s: State, a: Action)
    requires ReservesAgain(s, a)
    ensures a.Advance? && SecondReservation(s, a.pid, NameReserved(s, a).value) && Step(s, a) == Step(s, Go(a.pid))
  {
    hide Awaits, Current, Finds, HasStatus;
    OnlyScheduleReserves(s, s.procs[a.pid], a.ok, a.w);
  }

  lemma UnfencedIsUnsafe(s: State, a: Action)
    requires Inv(s) && !Fenced(s, a)
    ensures exists t :: Reaches(Step(s, a), t) && !NoVmLost(t)
  {
    hide Reaches, Step, Basic, PostsOk, VmsOk, NoVmLost, DeclaresLiveMissing, NameReserved;
    if DeclaresLiveMissing(s, a) {
      UnfencedUpdates(s, a);
      UnsafeWhenAlive(s, a.pid, s.procs[a.pid].w);
    } else {
      SameReservation(s, a);
      var l := NameReserved(s, a).value;
      var other :| other in s.procs && Recalls(s.procs[other], l);
      RecalledNameLosesAVm(s, other, a.pid, l);
    }
  }

  lemma FencedIsSafe(s: State, a: Action, run: seq<Action>)
    requires Inv(s) && Fenced(s, a) && FencedRun(Step(s, a), run)
    ensures NoVmLost(Run(Step(s, a), run))
  {
    hide Step, Basic, PostsOk, NoVmLost, Fenced, Run;
    StepKeepsInv(s, a);
    RunKeepsInv(Step(s, a), run);
  }

  lemma RefutesSafety(t: State, u: State)
    requires Reaches(t, u) && !NoVmLost(u)
    ensures !(forall run :: FencedRun(t, run) ==> NoVmLost(Run(t, run)))
  {
    hide FencedRun, StrictRun, Run, NoVmLost;
    var run: seq<Action> :| StrictRun(t, run) && Run(t, run) == u;
    StrictIsFenced(t, run);
    assert !NoVmLost(Run(t, run));
  }

  /** No VM is lost, whatever fenced run follows a step, if and only if the step is fenced. */
  lemma FencedIsExact(s: State, a: Action)
    requires Inv(s)
    ensures Fenced(s, a) <==>
            forall run :: FencedRun(Step(s, a), run) ==> NoVmLost(Run(Step(s, a), run))
  {
    hide Step, Inv, FencedRun, Run, NoVmLost, Fenced, Reaches;
    if Fenced(s, a) {
      forall run | FencedRun(Step(s, a), run) ensures NoVmLost(Run(Step(s, a), run)) {
        FencedIsSafe(s, a, run);
      }
    } else {
      UnfencedIsUnsafe(s, a);
      var u :| Reaches(Step(s, a), u) && !NoVmLost(u);
      RefutesSafety(Step(s, a), u);
    }
  }

  /** `markVmMissing` and `rebuildMissingVm` check only the row's status, so the row may
      have moved on to another VM since Labs was asked.  Exactly when does acting on the
      old answer lose no VM?  If and only if the VM the row carries now is dead too:
      otherwise some later run, itself without any such race, loses that VM. */
  lemma StaleMissingIsSafeIff(s: State, pid: Pid, w: WorkspaceId)
    requires Inv(s) && ActsOnMissing(s, pid, w)
    ensures (forall run :: FencedRun(Step(s, Go(pid)), run) ==> NoVmLost(Run(Step(s, Go(pid)), run)))
            <==> s.workspaces[w].labId.value !in s.live
  {
    FencedIsExact(s, Go(pid));
    hide Step, Inv, FencedRun, Run, NoVmLost;
    NothingReserved(s, pid);
  }

  lemma NothingReserved(s: State, pid: Pid)
    requires pid in s.procs && (s.procs[pid].MarkMissing? || s.procs[pid].Rebuild?)
    ensures NameReserved(s, Go(pid)) == None
  {
  }

  /** Exactly when does reserving a name a second time lose no VM?  If and only if no
      process stands at one of the four control points that act on what they learned
      about the first VM. */
  lemma SecondReservationIsSafeIff(s: State, pid: Pid, l: LabId)
    requires Inv(s) && SecondReservation(s, pid, l)
    ensures (forall run :: FencedRun(Step(s, Go(pid)), run) ==> NoVmLost(Run(Step(s, Go(pid)), run)))
            <==> Forgotten(s, l)
  {
    FencedIsExact(s, Go(pid));
    hide Step, Inv, FencedRun, Run, NoVmLost, NameReserved;
    ReserveAgain(s, pid, l);
  }

  /** All rows that later steps of careful runs remove are settled. */
  ghost predicate RowsWillLeaveSettled(t: State) {
    forall run, b, l :: CarefulRun(t, run) && Careful(Run(t, run), b) ==> LeavesSettled(Run(t, run), b, l)
  }

  lemma RefutesSettled(t: State, u: State, b: Action, l: LabId)
    requires Reaches(t, u) && Careful(u, b) && !LeavesSettled(u, b, l)
    ensures !RowsWillLeaveSettled(t)
  {
    hide FencedRun, StrictRun, CarefulRun, Run, LeavesSettled, Careful;
    var run: seq<Action> :| StrictRun(t, run) && Run(t, run) == u;
    StrictIsFenced(t, run);
    assert CarefulRun(t, run) && Careful(Run(t, run), b) && !LeavesSettled(Run(t, run), b, l);
  }

  /** A provision row whose POST is open is about to be dropped. */
  lemma DropLeavesUnsettled(s: State, a: Pid, l: LabId)
    requires AwaitsPost(s, l) && !s.provisions[l].settled && a in s.procs && s.procs[a] == DropProvision(l, true)
    ensures !RowsWillLeaveSettled(s)
  {
    hide Reaches, RowsWillLeaveSettled;
    var c := Fresh(s.procs);
    var s1 := ClaimReaches(s, l, c);
    DropStepDrops(s1, a, l);
    RefutesSettled(s, s1, Go(a), l);
  }

  lemma WillLeaveLater(s: State, t: State)
    requires Reaches(s, t) && !RowsWillLeaveSettled(t)
    ensures !RowsWillLeaveSettled(s)
  {
    hide Step, Run, StrictRun, CarefulRun, Careful, LeavesSettled;
    var run, b, l :| CarefulRun(t, run) && Careful(Run(t, run), b) && !LeavesSettled(Run(t, run), b, l);
    var before: seq<Action> :| StrictRun(s, before) && Run(s, before) == t;
    StrictIsFenced(s, before);
    CarefulAppend(s, before, run);
    RunAppend(s, before, run);
    assert CarefulRun(s, before + run) && Run(s, before + run) == Run(t, run);
  }

  lemma {:induction false} CarefulAppend(s: State, a: seq<Action>, b: seq<Action>)
    ensures CarefulRun(s, a + b) <==> CarefulRun(s, a) && CarefulRun(Run(s, a), b)
    decreases |a|
  {
    hide Careful, Step;
    if a == [] {
      assert a + b == b;
    } else {
      assert (a + b)[0] == a[0] && (a + b)[1..] == a[1..] + b;
      CarefulAppend(Step(s, a[0]), a[1..], b);
    }
  }

  lemma CleanerLeavesUnsettled(s: State, a: Pid, l: LabId)
    requires AwaitsPost(s, l) && !s.provisions[l].settled && a in s.procs
    requires s.procs[a] in {DeleteVm(l, true), ConfirmVm(l, true), DropProvision(l, true)}
    ensures !RowsWillLeaveSettled(s)
    decreases s.procs[a].DeleteVm?
  {
    hide Reaches, RowsWillLeaveSettled;
    var dead := s.(live := s.live - {l});
    match s.procs[a]
    case DropProvision(_, _) => DropLeavesUnsettled(s, a, l);
    case ConfirmVm(_, _) =>
      ReachesStep(s, LabsLoses(l), dead);
      var u := Goto(dead, a, DropProvision(l, true));
      ReachesAfter(s, dead, Go(a), u);
      DropLeavesUnsettled(u, a, l);
      WillLeaveLater(s, u);
    case DeleteVm(_, _) =>
      var v := Goto(dead, a, ConfirmVm(l, true));
      ReachesStep(s, Go(a), v);
      CleanerLeavesUnsettled(v, a, l);
      WillLeaveLater(s, v);
  }

  lemma AttachLeavesUnsettled(s: State, a: Pid, l: LabId)
    requires AwaitsPost(s, l) && !s.provisions[l].settled && a in s.procs && s.procs[a] == Attach(l)
    requires Awaits(s, l.workspace, l.generation)
    ensures !RowsWillLeaveSettled(s)
  {
    assert Run(s, []) == s && StrictRun(s, []);
    hide RowsWillLeaveSettled, StrictRun, Run;
    assert Reaches(s, s);
    AttachAttaches(s, l, a);
    assert Goto(s, a, Attach(l)) == s by { assert s.procs[a := Attach(l)] == s.procs; }
    assert Careful(s, Go(a));
    RefutesSettled(s, s, Go(a), l);
  }

  lemma CarelessIsUnsettled(s: State, a: Action)
    requires Basic(s) && !Careful(s, a)
    ensures !RowsWillLeaveSettled(Step(s, a))
  {
    hide Step, TablesBasic, ProcBasic, NameReserved, RowsWillLeaveSettled;
    SameReservation(s, a);
    var l := NameReserved(s, a).value;
    var other :| other in s.procs && Recalls(s.procs[other], l);
    ReserveAgain(s, a.pid, l);
    HoldersAreOlder(s, l, l.workspace);
    var u := Step(s, a);
    assert AwaitsPost(u, l) && u.procs[other] == s.procs[other];
    if s.procs[other] == Attach(l) {
      AttachLeavesUnsettled(u, other, l);
    } else {
      CleanerLeavesUnsettled(u, other, l);
    }
  }

  lemma CarefulIsSettled(s: State, a: Action, run: seq<Action>, b: Action, l: LabId)
    requires Basic(s) && PostsOk(s) && Careful(s, a) && CarefulRun(Step(s, a), run) && Careful(Run(Step(s, a), run), b)
    ensures LeavesSettled(Run(Step(s, a), run), b, l)
  {
    hide Step, Run, Basic, PostsOk, Careful, LeavesSettled;
    StepKeepsBasic(s, a);
    StepKeepsPosted(s, a);
    CarefulRunKeepsPosted(Step(s, a), run);
    RowLeaves(Run(Step(s, a), run), b, l);
  }

  /** Provision rows leave only when settled, in every careful continuation of a step, if and
      only if the step is careful itself. */
  lemma CarefulIsExact(s: State, a: Action)
    requires Basic(s) && PostsOk(s)
    ensures Careful(s, a) <==> RowsWillLeaveSettled(Step(s, a))
  {
    hide Step, Run, Basic, PostsOk, Careful, CarefulRun, LeavesSettled;
    if Careful(s, a) {
      forall run, b, l | CarefulRun(Step(s, a), run) && Careful(Run(Step(s, a), run), b)
        ensures LeavesSettled(Run(Step(s, a), run), b, l)
      {
        CarefulIsSettled(s, a, run, b, l);
      }
    } else {
      CarelessIsUnsettled(s, a);
    }
  }

  // ----- a name really can be reserved again -----

  lemma CleanupClaims(s: State, l: LabId, pid: Pid)
    requires l in s.provisions && !s.provisions[l].claimed && s.provisions[l].settled && pid !in s.procs
    ensures var row := s.provisions[l].(claimed := true, cleanupAt := s.now + RESET_RETRY_MS);
            Reaches(s, Goto(s.(provisions := s.provisions[l := row]), pid, DeleteVm(l, true)))
  {
    hide Reaches;
    var t := ClaimReaches(s, l, pid);
    var u := s.(provisions := t.provisions);
    GotoOverrides(u, pid, ReadProvision(l), DeleteVm(l, true));
    ReachesAfter(s, t, Go(pid), Goto(u, pid, DeleteVm(l, true)));
  }

  lemma DeleteToDrop(s: State, l: LabId, pid: Pid)
    ensures var u := s.(live := s.live - {l});
            Reaches(Goto(s, pid, DeleteVm(l, true)), Goto(u, pid, DropProvision(l, true)))
  {
    hide Reaches;
    var s0 := Goto(s, pid, DeleteVm(l, true));
    var u := s.(live := s.live - {l});
    GotoOverrides(u, pid, DeleteVm(l, true), ConfirmVm(l, true));
    var s1 := Goto(u, pid, ConfirmVm(l, true));
    ReachesStep(s0, Go(pid), s1);
    GotoOverrides(u, pid, ConfirmVm(l, true), DropProvision(l, true));
    ReachesAfter(s0, s1, Go(pid), Goto(u, pid, DropProvision(l, true)));
  }

  lemma CleanupDrops(s: State, l: LabId, pid: Pid)
    requires l in s.provisions && s.provisions[l].claimed && pid !in s.procs
    ensures Reaches(Goto(s, pid, DeleteVm(l, true)), s.(provisions := s.provisions - {l}, live := s.live - {l}))
  {
    hide Reaches;
    DeleteToDrop(s, l, pid);
    var u := s.(live := s.live - {l});
    var s2 := Goto(u, pid, DropProvision(l, true));
    var t := u.(provisions := u.provisions - {l});
    DropStepDrops(s2, pid, l);
    GotoOverrides(t, pid, DropProvision(l, true), DropProvision(l, true));
    hide Step;
    ReachesAfter(Goto(s, pid, DeleteVm(l, true)), s2, Go(pid), t);
  }

  const FIRST_ROW := WorkspaceRow(0, Error, None, 0, Some(0), None)

  /** One enrollment whose first provision attempt timed out before its POST. */
  const TIMED_OUT := INITIAL.(enrollments := map[0 := Enrollment(0, true)],
                              workspaces := map[0 := FIRST_ROW],
                              usedIds := {0}, now := STALE_CREATING_MS + 1)

  lemma TimedOutIsReachable()
    ensures Reaches(INITIAL, TIMED_OUT)
  {
    hide Reaches;
    var s1 := INITIAL.(enrollments := map[0 := Enrollment(0, true)]);
    ReachesStep(INITIAL, Enroll(0), s1);
    var s2 := Goto(s1, 1, CreateRead(0, 0));
    ReachesAfter(INITIAL, s1, Begin(1, CreateRequest(0)), s2);
    var s3 := Goto(s1, 1, CreateInsert(0, 0));
    GotoOverrides(s1, 1, CreateRead(0, 0), CreateInsert(0, 0));
    ReachesAfter(INITIAL, s2, Go(1), s3);
    var row := FIRST_ROW.(status := Creating);
    var s4 := Goto(Apply(s3, NewRow(0, row)), 1, Schedule(0, 0, 0, 0));
    ReachesAfter(INITIAL, s3, Advance(1, true, Some(0)), s4);
    var s5 := s1.(workspaces := map[0 := row], usedIds := {0});
    assert s4.procs - {1} == map[];
    ReachesAfter(INITIAL, s4, Crash(1), s5);
    CreatingRowCanExpire(s5, 0);
    assert Expired(s5, 0) == TIMED_OUT by { assert Expired(s5, 0).workspaces == TIMED_OUT.workspaces; }
    ReachesTransitive(INITIAL, s5, TIMED_OUT);
  }

  /** Two requests hold a ticket for the same VM name: one has provisioned it, lost it
      to the sweeper and is about to attach; the other is about to reserve it again. */
  predicate TwoTickets(s: State, a: Pid, b: Pid, l: LabId) {
    a in s.procs && s.procs[a] == Attach(l) && SecondReservation(s, b, l)
  }

  /** The first request re-reads its row only after a second one has revived it again, so both
      get a ticket for generation 2 of workspace 0; the second one's task is about to attach. */
  lemma TaskIsAboutToAttach() returns (t: State)
    ensures Reaches(INITIAL, t) && t.procs == map[1 := Schedule(0, 0, 2, 0), 2 := Attach(LabId(0, 2))]
    ensures LabId(0, 2) in t.provisions && !t.provisions[LabId(0, 2)].claimed && t.provisions[LabId(0, 2)].settled
    ensures Awaits(t, 0, 2) && Current(t, 0, 0) && t.workspaces[0].enrollment == 0 && LabId(0, 2) in t.reservedFor
  {
    hide Reaches, Step, Strict;
    TimedOutIsReachable();
    var s0 := TIMED_OUT;
    ReviveReachesReread(s0, 0, 1);
    var s1 := Goto(Revived(s0, 0), 1, Reread(0, 0, 1));
    ReachesTransitive(INITIAL, s0, s1);
    CreatingRowCanExpire(s1, 0);
    var s2 := Expired(s1, 0);
    ReachesTransitive(INITIAL, s1, s2);
    ReviveReaches(s2, 0, 2);
    var s3 := Goto(Revived(s2, 0), 2, Schedule(0, 0, 2, 0));
    ReachesTransitive(INITIAL, s2, s3);
    t := SecondTicket(s3);
  }

  lemma SecondTicket(s: State) returns (t: State)
    requires Reaches(INITIAL, s) && s.procs == map[1 := Reread(0, 0, 1), 2 := Schedule(0, 0, 2, 0)]
    requires Awaits(s, 0, 2) && s.workspaces[0].enrollment == 0 && Current(s, 0, 0)
    requires s.provisions == map[] && s.reservedFor == map[] && s.live == {}
    ensures Reaches(INITIAL, t) && t.procs == map[1 := Schedule(0, 0, 2, 0), 2 := Attach(LabId(0, 2))]
    ensures LabId(0, 2) in t.provisions && !t.provisions[LabId(0, 2)].claimed && t.provisions[LabId(0, 2)].settled
    ensures Awaits(t, 0, 2) && Current(t, 0, 0) && t.workspaces[0].enrollment == 0 && LabId(0, 2) in t.reservedFor
  {
    hide Reaches, Step, Strict;
    assert s == Goto(s, 1, Reread(0, 0, 1)) by { assert s.procs[1 := Reread(0, 0, 1)] == s.procs; }
    RereadToSchedule(s, 0, 1, 0, 1);
    var s1 := Goto(s, 1, Schedule(0, 0, 2, 0));
    ReachesAfter(INITIAL, s, Go(1), s1);
    assert s1 == Goto(s1, 2, Schedule(0, 0, 2, 0)) by { assert s1.procs[2 := Schedule(0, 0, 2, 0)] == s1.procs; }
    ProvisionReachesAttach(s1, 0, 2, 0);
    t := Goto(Attachable(s1, 0, 0), 2, Attach(LabId(0, 2)));
    ReachesTransitive(INITIAL, s1, t);
  }

  /** A run that breaks no rule leads to two tickets for one name. */
  lemma TwoTicketsAreReachable()
    ensures exists s, a, b, l :: Reaches(INITIAL, s) && TwoTickets(s, a, b, l)
  {
    hide Reaches, Step, Strict;
    var l := LabId(0, 2);
    var s2 := TaskIsAboutToAttach();
    CleanupClaims(s2, l, 3);
    var row := s2.provisions[l].(claimed := true, cleanupAt := s2.now + RESET_RETRY_MS);
    var s3 := s2.(provisions := s2.provisions[l := row]);
    ReachesTransitive(INITIAL, s2, Goto(s3, 3, DeleteVm(l, true)));
    CleanupDrops(s3, l, 3);
    var t := s3.(provisions := s3.provisions - {l}, live := s3.live - {l});
    ReachesTransitive(INITIAL, Goto(s3, 3, DeleteVm(l, true)), t);
    assert TwoTickets(t, 2, 1, l);
  }

  /** So the code as it is can lose a VM. */
  lemma VmsCanBeLost()
    ensures exists run :: !NoVmLost(Run(INITIAL, run))
  {
    hide Step, Strict, NoVmLost, Basic, PostsOk, VmsOk, SecondReservation;
    TwoTicketsAreReachable();
    var s, a, b, l :| Reaches(INITIAL, s) && TwoTickets(s, a, b, l);
    var before: seq<Action> :| StrictRun(INITIAL, before) && Run(INITIAL, before) == s;
    InitialInv();
    StrictIsFenced(INITIAL, before);
    RunKeepsInv(INITIAL, before);
    AttachLosesAVm(s, a, b, l);
    var t :| Reaches(Step(s, Go(b)), t) && !NoVmLost(t);
    var after: seq<Action> :| StrictRun(Step(s, Go(b)), after) && Run(Step(s, Go(b)), after) == t;
    RunAppend(INITIAL, before, [Go(b)] + after);
    assert ([Go(b)] + after)[1..] == after;
    assert Run(INITIAL, before + ([Go(b)] + after)) == t;
  }
}
