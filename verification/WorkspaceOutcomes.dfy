/** What each request and task achieves when nothing else runs in between: the tables at its
    end, written out. */
module WorkspaceOutcomes {
  import opened Options
  import opened Workspace
  import opened WorkspaceRuns
  import opened WorkspaceSafety
  import opened WorkspacePaths

  // ----- one process, move by move -----

  lemma MoveIgnoresProcs(s: State, t: State, p: Proc, ok: bool, w: Option<WorkspaceId>)
    requires t == s.(procs := t.procs)
    ensures MoveOf(t, p, ok, w) == MoveOf(s, p, ok, w)
  {
    hide CreateMove, ProvisionMove, CleanupMove, ResetMove, StopMove, StartMove;
    if p.CreateRead? || p.CreateInsert? || p.CreateRevive? || p.Reread? {
      CreateIgnoresProcs(s, t, p, w);
    } else if p.Schedule? || p.Posting? || p.Settle? || p.Attach? {
      ProvisionIgnoresProcs(s, t, p, ok);
    } else if p.Claim? || p.ReadProvision? || p.DeleteVm? || p.ConfirmVm? || p.DropProvision? || p.CleanupFailed? {
      CleanupIgnoresProcs(s, t, p, ok);
    } else if p.ResetRead? || p.ResetDefer? || p.ResetDelete? || p.ResetConfirm? || p.ResetDrop? || p.ResetFailed? {
      ResetIgnoresProcs(s, t, p, ok);
    } else if p.StopVm? || p.StopDone? || p.MarkMissing? || p.Expire? {
      StopIgnoresProcs(s, t, p, ok);
    } else {
      StartIgnoresProcs(s, t, p, ok, w);
    }
  }

  lemma CreateIgnoresProcs(s: State, t: State, p: Proc, w: Option<WorkspaceId>)
    requires t == s.(procs := t.procs)
    requires p.CreateRead? || p.CreateInsert? || p.CreateRevive? || p.Reread?
    ensures CreateMove(t, p, w) == CreateMove(s, p, w)
  {
  }

  lemma ProvisionIgnoresProcs(s: State, t: State, p: Proc, ok: bool)
    requires t == s.(procs := t.procs)
    requires p.Schedule? || p.Posting? || p.Settle? || p.Attach?
    ensures ProvisionMove(t, p, ok) == ProvisionMove(s, p, ok)
  {
  }

  lemma CleanupIgnoresProcs(s: State, t: State, p: Proc, ok: bool)
    requires t == s.(procs := t.procs)
    requires p.Claim? || p.ReadProvision? || p.DeleteVm? || p.ConfirmVm? || p.DropProvision? || p.CleanupFailed?
    ensures CleanupMove(t, p, ok) == CleanupMove(s, p, ok)
  {
  }

  lemma ResetIgnoresProcs(s: State, t: State, p: Proc, ok: bool)
    requires t == s.(procs := t.procs)
    requires p.ResetRead? || p.ResetDefer? || p.ResetDelete? || p.ResetConfirm? || p.ResetDrop? || p.ResetFailed?
    ensures ResetMove(t, p, ok) == ResetMove(s, p, ok)
  {
  }

  lemma StopIgnoresProcs(s: State, t: State, p: Proc, ok: bool)
    requires t == s.(procs := t.procs)
    requires p.StopVm? || p.StopDone? || p.MarkMissing? || p.Expire?
    ensures StopMove(t, p, ok) == StopMove(s, p, ok)
  {
  }

  lemma StartIgnoresProcs(s: State, t: State, p: Proc, ok: bool, w: Option<WorkspaceId>)
    requires t == s.(procs := t.procs)
    requires p.StartRead? || p.StartVm? || p.StartDone? || p.Rebuild?
    ensures StartMove(t, p, ok, w) == StartMove(s, p, ok, w)
  {
  }

  /** Steps without a race. */
  predicate Calm(s: State, p: Proc, x: Write) {
    && (x.Reserve? ==> x.l !in s.reservedFor)
    && (p.MarkMissing? || p.Rebuild? ==> !CarriesLive(s, p.w))
  }

  lemma Begins(s: State, pid: Pid, r: Request, p: Proc)
    requires pid !in s.procs && FirstMove(s, r) == Some(p)
    ensures Reaches(s, Goto(s, pid, p))
  {
    hide Reaches, FirstMove;
    BeginIsStrict(s, pid, r);
    ReachesStep(s, Begin(pid, r), Goto(s, pid, p));
  }

  /** From one control point to the next: `x` is what the move writes, `q` where it goes on. */
  lemma GoesOn(s0: State, s: State, pid: Pid, p: Proc, ok: bool, w: Option<WorkspaceId>, x: Write, q: Proc)
    requires Reaches(s0, Goto(s, pid, p)) && MoveOf(s, p, ok, w) == Move(x, Some(q)) && Calm(s, p, x)
    ensures Reaches(s0, Goto(Apply(s, x), pid, q))
  {
    hide Reaches, MoveOf, Apply, Strict, Step;
    MoveIsStep(s, pid, p, ok, w, x, Some(q));
    WriteIgnoresProcs(s, Goto(s, pid, p), x);
    ApplyKeepsProcs(s, x);
    GotoOverrides(Apply(s, x), pid, p, q);
    ReachesAfter(s0, Goto(s, pid, p), Advance(pid, ok, w), Goto(Apply(s, x), pid, q));
  }

  /** The last move. */
  lemma Ends(s0: State, s: State, pid: Pid, p: Proc, ok: bool, w: Option<WorkspaceId>, x: Write)
    requires pid !in s.procs
    requires Reaches(s0, Goto(s, pid, p)) && MoveOf(s, p, ok, w) == Move(x, None) && Calm(s, p, x)
    ensures Reaches(s0, Apply(s, x))
  {
    hide Reaches, MoveOf, Apply, Strict, Step;
    MoveIsStep(s, pid, p, ok, w, x, None);
    WriteIgnoresProcs(s, Goto(s, pid, p), x);
    ApplyKeepsProcs(s, x);
    GotoOverrides(Apply(s, x), pid, p, p);
    ReachesAfter(s0, Goto(s, pid, p), Advance(pid, ok, w), Apply(s, x));
  }

  lemma WriteIgnoresProcs(s: State, t: State, x: Write)
    requires t == s.(procs := t.procs)
    ensures Apply(t, x) == Apply(s, x).(procs := t.procs)
  {
  }

  lemma MoveIsStep(s: State, pid: Pid, p: Proc, ok: bool, w: Option<WorkspaceId>, x: Write, next: Option<Proc>)
    requires MoveOf(s, p, ok, w) == Move(x, next) && Calm(s, p, x)
    ensures var s1 := Goto(s, pid, p); var a := Advance(pid, ok, w);
            Strict(s1, a) && Step(s1, a) == Land(Apply(s1, x), pid, next)
  {
    hide MoveOf, Apply, Land;
    MoveIgnoresProcs(s, Goto(s, pid, p), p, ok, w);
  }

  lemma ReachesItself(s: State)
    ensures Reaches(s, s)
  {
    assert StrictRun(s, []) && Run(s, []) == s;
  }

  function WithRow(s: State, w: WorkspaceId, row: WorkspaceRow): State {
    s.(workspaces := s.workspaces[w := row])
  }

  // ----- stopping and starting -----

  /** A stop that Labs carries out leaves the machine STOPPED, with its VM. */
  lemma StopStops(s: State, w: WorkspaceId)
    requires HasStatus(s, w, Running) && s.workspaces[w].labId.Some?
    ensures Reaches(s, WithRow(s, w, s.workspaces[w].(status := Stopped)))
  {
    hide Reaches;
    var pid, l := Fresh(s.procs), s.workspaces[w].labId.value;
    Begins(s, pid, StopRequest(w), StopVm(w, l));
    GoesOn(s, s, pid, StopVm(w, l), true, None, NoWrite, StopDone(w));
    Ends(s, s, pid, StopDone(w), true, None, PutStatus(s, w, Stopped));
  }

  /** A stop that finds the VM missing leaves an ERROR row. */
  lemma StopOfMissingFails(s: State, w: WorkspaceId)
    requires HasStatus(s, w, Running) && s.workspaces[w].labId.Some? && s.workspaces[w].labId.value !in s.live
    ensures Reaches(s, WithRow(s, w, s.workspaces[w].(status := Error)))
  {
    hide Reaches;
    StopReaches(s, w, s.workspaces[w].labId.value);
  }

  /** A start that Labs carries out leaves the machine RUNNING, with its VM. */
  lemma StartStarts(s: State, w: WorkspaceId)
    requires HasStatus(s, w, Stopped) && s.workspaces[w].labId.Some? && s.workspaces[w].enrollment in s.enrollments
    ensures Reaches(s, WithRow(s, w, s.workspaces[w].(status := Running)))
  {
    hide Reaches;
    var pid, l, e := Fresh(s.procs), s.workspaces[w].labId.value, s.workspaces[w].enrollment;
    StartFindsVm(s, pid, w);
    GoesOn(s, s, pid, StartVm(w, l, s.enrollments[e].generation), true, None, NoWrite, StartDone(w));
    Ends(s, s, pid, StartDone(w), true, None, PutStatus(s, w, Running));
  }

  lemma StartFindsVm(s: State, pid: Pid, w: WorkspaceId)
    requires HasStatus(s, w, Stopped) && s.workspaces[w].labId.Some? && s.workspaces[w].enrollment in s.enrollments
    requires pid !in s.procs
    ensures var e := s.workspaces[w].enrollment;
            Reaches(s, Goto(s, pid, StartVm(w, s.workspaces[w].labId.value, s.enrollments[e].generation)))
  {
    hide Reaches;
    var e, l := s.workspaces[w].enrollment, s.workspaces[w].labId.value;
    var eg := s.enrollments[e].generation;
    Begins(s, pid, StartRequest(e), StartRead(e, eg));
    GoesOn(s, s, pid, StartRead(e, eg), true, Some(w), NoWrite, StartVm(w, l, eg));
  }

  /** RUNNING for `e` with a live VM of its own, and nothing left to clean up. */
  predicate RunsOn(s: State, w: WorkspaceId, e: EnrollmentId, l: LabId) {
    && w in s.workspaces
    && s.workspaces[w] == WorkspaceRow(e, Running, Some(l), l.generation, None, s.workspaces[w].retryAt)
    && l in s.live && l !in s.provisions
  }

  lemma StartRevives(s: State, pid: Pid, w: WorkspaceId)
    requires HasStatus(s, w, Stopped) && s.workspaces[w].labId.Some? && s.workspaces[w].labId.value !in s.live
    requires s.workspaces[w].enrollment in s.enrollments && pid !in s.procs
    ensures var row := s.workspaces[w]; var eg := s.enrollments[row.enrollment].generation;
            Reaches(s, Goto(Revived(s, w), pid, Reread(w, eg, row.generation + 1)))
  {
    hide Reaches;
    var row := s.workspaces[w];
    var l, g, eg := row.labId.value, row.generation + 1, s.enrollments[row.enrollment].generation;
    StartFindsVm(s, pid, w);
    GoesOn(s, s, pid, StartVm(w, l, eg), false, None, NoWrite, Rebuild(w, l, eg));
    GoesOn(s, s, pid, Rebuild(w, l, eg), true, None, Revive(s, w), Reread(w, eg, g));
  }

  /** A start that finds the VM missing builds the next one, and runs on it. */
  lemma StartRebuilds(s: State, w: WorkspaceId)
    requires Basic(s) && HasStatus(s, w, Stopped) && s.workspaces[w].labId.Some? && s.workspaces[w].labId.value !in s.live
    requires s.enrollments[s.workspaces[w].enrollment].active
    ensures exists t :: Reaches(s, t) && RunsOn(t, w, s.workspaces[w].enrollment, LabId(w, s.workspaces[w].generation + 1))
  {
    hide Reaches, Basic;
    assert s.workspaces[w].enrollment in s.enrollments && NextIsFree(s, w) by { NextNameIsFree(s, w); }
    var pid, e, g, u := Fresh(s.procs), s.workspaces[w].enrollment, s.workspaces[w].generation + 1, Revived(s, w);
    var eg := s.enrollments[e].generation;
    StartRevives(s, pid, w);
    GoesOn(s, u, pid, Reread(w, eg, g), true, None, NoWrite, Schedule(w, e, g, eg));
    ProvisionReaches(u, w, pid, eg);
    ReachesTransitive(s, Goto(u, pid, Schedule(w, e, g, eg)), Provisioned(u, w, eg));
    assert RunsOn(Provisioned(u, w, eg), w, s.workspaces[w].enrollment, LabId(w, g));
  }

  predicate NextIsFree(s: State, w: WorkspaceId)
    requires w in s.workspaces
  {
    var l := LabId(w, s.workspaces[w].generation + 1); l !in s.reservedFor && l !in s.provisions
  }

  lemma NextNameIsFree(s: State, w: WorkspaceId)
    requires Basic(s) && w in s.workspaces
    ensures s.workspaces[w].enrollment in s.enrollments && NextIsFree(s, w)
  {
    hide ProcBasic, RowsApart;
    RowIsBasic(s, w);
  }

  // ----- creating -----

  /** A learner of an active course who has no machine gets one, running on its first VM. */
  lemma CreateCreates(s: State, e: EnrollmentId, id: WorkspaceId)
    requires Basic(s) && e in s.enrollments && s.enrollments[e].active && Finds(s, e, None) && id !in s.usedIds
    ensures exists t :: Reaches(s, t) && RunsOn(t, id, e, LabId(id, 0))
  {
    hide Reaches, Basic;
    assert LabId(id, 0) !in s.reservedFor && LabId(id, 0) !in s.provisions by { NewNameIsFree(s, id); }
    var pid, eg, x := Fresh(s.procs), s.enrollments[e].generation, NewRow(id, WorkspaceRow(e, Creating, None, 0, Some(s.now), None));
    var u := Apply(s, x);
    Begins(s, pid, CreateRequest(e), CreateRead(e, eg));
    GoesOn(s, s, pid, CreateRead(e, eg), true, None, NoWrite, CreateInsert(e, eg));
    GoesOn(s, s, pid, CreateInsert(e, eg), true, Some(id), x, Schedule(id, e, 0, eg));
    ProvisionReaches(u, id, pid, eg);
    ReachesTransitive(s, Goto(u, pid, Schedule(id, e, 0, eg)), Provisioned(u, id, eg));
    assert RunsOn(Provisioned(u, id, eg), id, e, LabId(id, 0));
  }

  lemma NewNameIsFree(s: State, id: WorkspaceId)
    requires Basic(s) && id !in s.usedIds
    ensures LabId(id, 0) !in s.reservedFor && LabId(id, 0) !in s.provisions
  {
    hide ProcBasic, RowsApart, RowBasic;
  }

  /** A failed machine is created anew under the next provision generation. */
  lemma CreateRecovers(s: State, w: WorkspaceId)
    requires Basic(s) && HasStatus(s, w, Error) && s.enrollments[s.workspaces[w].enrollment].active
    ensures exists t :: Reaches(s, t) && RunsOn(t, w, s.workspaces[w].enrollment, LabId(w, s.workspaces[w].generation + 1))
  {
    hide Reaches, Basic;
    assert s.workspaces[w].enrollment in s.enrollments && NextIsFree(s, w) by { NextNameIsFree(s, w); }
    var pid, row, u := Fresh(s.procs), s.workspaces[w], Revived(s, w);
    var eg, g := s.enrollments[row.enrollment].generation, row.generation + 1;
    ReviveReaches(s, w, pid);
    ProvisionReaches(u, w, pid, eg);
    ReachesTransitive(s, Goto(u, pid, Schedule(w, row.enrollment, g, eg)), Provisioned(u, w, eg));
    assert RunsOn(Provisioned(u, w, eg), w, s.workspaces[w].enrollment, LabId(w, g));
  }

  /** Nobody else gets a machine: an inactive course is refused at once, and an existing
      machine that has not failed is handed back as it is. */
  lemma CreateRefuses(s: State, pid: Pid, e: EnrollmentId)
    ensures e !in s.enrollments || !s.enrollments[e].active ==> BeginStep(s, pid, CreateRequest(e)) == s
    ensures forall w, eg :: Finds(s, e, Some(w)) && s.workspaces[w].status != Error ==>
              MoveOf(s, CreateRead(e, eg), true, Some(w)) == END
  {
  }

  /** A request whose learner has restarted meanwhile reserves nothing and hands the machine
      to the sweeper. */
  lemma OutdatedRequestResets(s: State, pid: Pid, w: WorkspaceId, e: EnrollmentId, g: nat, eg: nat)
    requires pid !in s.procs && Awaits(s, w, g) && !Current(s, e, eg)
    ensures Reaches(Goto(s, pid, Schedule(w, e, g, eg)),
                    WithRow(s, w, s.workspaces[w].(status := Resetting, startedAt := None, retryAt := None)))
  {
    hide Reaches;
    var row, s0 := s.workspaces[w], Goto(s, pid, Schedule(w, e, g, eg));
    ReachesItself(s0);
    Ends(s0, s, pid, Schedule(w, e, g, eg), true, None,
         PutRow(w, row.(status := Resetting, startedAt := None, retryAt := None)));
  }

  /** A POST that fails or times out leaves an ERROR row, if the row still awaits it, and
      always leaves the provision row: the VM may still come. */
  lemma FailedPostLeavesError(s: State, pid: Pid, l: LabId)
    requires pid !in s.procs
    ensures Reaches(Goto(s, pid, Posting(l)),
                    if Awaits(s, l.workspace, l.generation)
                    then WithRow(s, l.workspace, s.workspaces[l.workspace].(status := Error)) else s)
  {
    hide Reaches;
    var s0, w := Goto(s, pid, Posting(l)), l.workspace;
    ReachesItself(s0);
    Ends(s0, s, pid, Posting(l), false, None, if Awaits(s, w, l.generation) then PutStatus(s, w, Error) else NoWrite);
  }

  /** A row that has been CREATING for more than five minutes becomes an ERROR row when it is
      polled, and not before. */
  lemma PollExpires(s: State, w: WorkspaceId)
    requires HasStatus(s, w, Creating) && s.workspaces[w].startedAt.Some?
    ensures s.now > s.workspaces[w].startedAt.value + 300_000 ==>
              Reaches(s, WithRow(s, w, s.workspaces[w].(status := Error)))
    ensures s.now <= s.workspaces[w].startedAt.value + 300_000 ==> forall pid :: BeginStep(s, pid, PollRequest(w)) == s
  {
    if s.now > s.workspaces[w].startedAt.value + 300_000 {
      hide Reaches;
      var pid, p := Fresh(s.procs), Expire(w, s.workspaces[w].generation);
      Begins(s, pid, PollRequest(w), p);
      Ends(s, s, pid, p, true, None, PutStatus(s, w, Error));
    }
  }

  // ----- resetting -----

  /** The VM a reset deletes: the attached one, or the one of the first attempt. */
  function Target(s: State, w: WorkspaceId): LabId
    requires w in s.workspaces
  {
    if s.workspaces[w].labId.Some? then s.workspaces[w].labId.value else LabId(w, 0)
  }

  /** The creation may still be under way: less than 210 seconds have passed. */
  predicate MaySettle(s: State, w: WorkspaceId)
    requires w in s.workspaces
  {
    s.workspaces[w].startedAt.Some? && s.now < s.workspaces[w].startedAt.value + 210_000
  }

  /** A reset deletes the VM and then the row; if Labs fails it is tried again a minute later;
      and while a creation may still be under way it is put off until that has settled. */
  lemma ResetResets(s: State, w: WorkspaceId)
    requires HasStatus(s, w, Resetting)
    ensures var row := s.workspaces[w];
            if MaySettle(s, w) then
              Reaches(s, WithRow(s, w, row.(retryAt := Some(row.startedAt.value + 210_000))))
            else
              && Reaches(s, s.(workspaces := s.workspaces - {w}, live := s.live - {Target(s, w)}))
              && Reaches(s, WithRow(s, w, row.(retryAt := Some(s.now + 60_000))))
  {
    hide Reaches;
    var pid, row, l := Fresh(s.procs), s.workspaces[w], Target(s, w);
    Begins(s, pid, ResetRequest(w), ResetRead(w));
    if MaySettle(s, w) {
      var p := ResetDefer(w, row.startedAt.value);
      GoesOn(s, s, pid, ResetRead(w), true, None, NoWrite, p);
      Ends(s, s, pid, p, true, None, PutRetry(s, w, row.startedAt.value + 210_000));
    } else {
      GoesOn(s, s, pid, ResetRead(w), true, None, NoWrite, ResetDelete(w, l));
      ResetDeletes(s, pid, w, l);
      ResetRetries(s, pid, w, l);
    }
  }

  lemma ResetDeletes(s: State, pid: Pid, w: WorkspaceId, l: LabId)
    requires HasStatus(s, w, Resetting) && pid !in s.procs && Reaches(s, Goto(s, pid, ResetDelete(w, l)))
    ensures Reaches(s, s.(workspaces := s.workspaces - {w}, live := s.live - {l}))
  {
    hide Reaches;
    var u := s.(live := s.live - {l});
    GoesOn(s, s, pid, ResetDelete(w, l), true, None, KillVm(l), ResetConfirm(w, l));
    GoesOn(s, u, pid, ResetConfirm(w, l), true, None, NoWrite, ResetDrop(w));
    Ends(s, u, pid, ResetDrop(w), true, None, DropRow(w));
  }

  lemma ResetRetries(s: State, pid: Pid, w: WorkspaceId, l: LabId)
    requires HasStatus(s, w, Resetting) && pid !in s.procs && Reaches(s, Goto(s, pid, ResetDelete(w, l)))
    ensures Reaches(s, WithRow(s, w, s.workspaces[w].(retryAt := Some(s.now + 60_000))))
  {
    hide Reaches;
    GoesOn(s, s, pid, ResetDelete(w, l), false, None, NoWrite, ResetConfirm(w, l));
    GoesOn(s, s, pid, ResetConfirm(w, l), false, None, NoWrite, ResetFailed(w));
    Ends(s, s, pid, ResetFailed(w), true, None, PutRetry(s, w, s.now + 60_000));
  }

  /** A machine that is not RESETTING is not touched by a reset. */
  lemma ResetSparesOthers(s: State, w: WorkspaceId)
    requires !HasStatus(s, w, Resetting)
    ensures MoveOf(s, ResetRead(w), true, None) == END && MoveOf(s, ResetDrop(w), true, None) == END
  {
  }

  // ----- cleaning up -----

  /** May be claimed: PENDING, or CLEANUP whose time has come. */
  predicate Claimable(s: State, l: LabId) {
    l in s.provisions && (!s.provisions[l].claimed || s.provisions[l].cleanupAt <= s.now)
  }

  function WithProvision(s: State, l: LabId, row: Provision): State {
    s.(provisions := s.provisions[l := row])
  }

  /** A cleanup claims the row and deletes the VM.  If the POST was settled the row goes;
      otherwise the claimed row stays and is looked at again an hour later; and if Labs fails
      it is tried again a minute later. */
  lemma CleanupCleansUp(s: State, l: LabId)
    requires Claimable(s, l)
    ensures var gone := s.(live := s.live - {l});
            if s.provisions[l].settled then Reaches(s, gone.(provisions := s.provisions - {l}))
            else Reaches(s, WithProvision(gone, l, Provision(true, false, s.now + 3_600_000)))
    ensures Reaches(s, WithProvision(s, l, Provision(true, s.provisions[l].settled, s.now + 60_000)))
  {
    hide Reaches;
    var pid := Fresh(s.procs);
    Begins(s, pid, CleanupRequest(l), Claim(l));
    CleanupClaims(s, s, pid, l);
    CleanupEnds(s, s, pid, l);
    CleanupRetries(s, s, pid, l);
  }

  /** After the claim and the reading of `settled`. */
  function Claimed(s: State, l: LabId): State
    requires l in s.provisions
  {
    WithProvision(s, l, Provision(true, s.provisions[l].settled, s.now + 60_000))
  }

  lemma CleanupClaims(s0: State, s: State, pid: Pid, l: LabId)
    requires Claimable(s, l) && Reaches(s0, Goto(s, pid, Claim(l)))
    ensures Reaches(s0, Goto(Claimed(s, l), pid, DeleteVm(l, s.provisions[l].settled)))
  {
    hide Reaches;
    var u := Claimed(s, l);
    GoesOn(s0, s, pid, Claim(l), true, None, PutProvision(l, u.provisions[l]), ReadProvision(l));
    GoesOn(s0, u, pid, ReadProvision(l), true, None, NoWrite, DeleteVm(l, s.provisions[l].settled));
  }

  lemma CleanupDeletes(s0: State, s: State, pid: Pid, l: LabId, saw: bool)
    requires Reaches(s0, Goto(s, pid, DeleteVm(l, saw)))
    ensures Reaches(s0, Goto(s.(live := s.live - {l}), pid, DropProvision(l, saw)))
  {
    hide Reaches;
    GoesOn(s0, s, pid, DeleteVm(l, saw), true, None, KillVm(l), ConfirmVm(l, saw));
    GoesOn(s0, s.(live := s.live - {l}), pid, ConfirmVm(l, saw), true, None, NoWrite, DropProvision(l, saw));
  }

  lemma CleanupEnds(s0: State, s: State, pid: Pid, l: LabId)
    requires l in s.provisions && pid !in s.procs
    requires Reaches(s0, Goto(Claimed(s, l), pid, DeleteVm(l, s.provisions[l].settled)))
    ensures var gone := s.(live := s.live - {l});
            if s.provisions[l].settled then Reaches(s0, gone.(provisions := s.provisions - {l}))
            else Reaches(s0, WithProvision(gone, l, Provision(true, false, s.now + 3_600_000)))
  {
    hide Reaches;
    var saw, u := s.provisions[l].settled, Claimed(s, l);
    CleanupDeletes(s0, u, pid, l, saw);
    var v := u.(live := s.live - {l});
    if saw {
      Ends(s0, v, pid, DropProvision(l, saw), true, None, TakeProvision(l));
      assert u.provisions - {l} == s.provisions - {l};
    } else {
      Ends(s0, v, pid, DropProvision(l, saw), true, None, PutCleanupAt(v, l, s.now + 3_600_000));
      assert u.provisions[l := Provision(true, false, s.now + 3_600_000)]
          == s.provisions[l := Provision(true, false, s.now + 3_600_000)];
    }
  }

  lemma CleanupRetries(s0: State, s: State, pid: Pid, l: LabId)
    requires l in s.provisions && pid !in s.procs
    requires Reaches(s0, Goto(Claimed(s, l), pid, DeleteVm(l, s.provisions[l].settled)))
    ensures Reaches(s0, Claimed(s, l))
  {
    hide Reaches;
    var saw, u := s.provisions[l].settled, Claimed(s, l);
    GoesOn(s0, u, pid, DeleteVm(l, saw), false, None, NoWrite, ConfirmVm(l, saw));
    GoesOn(s0, u, pid, ConfirmVm(l, saw), false, None, NoWrite, CleanupFailed(l));
    Ends(s0, u, pid, CleanupFailed(l), true, None, PutCleanupAt(u, l, s.now + 60_000));
    assert u.provisions[l := u.provisions[l]] == u.provisions;
  }

  /** A task whose row no longer awaits it when the answer comes, because the learner
      restarted or tried again, attaches nothing: it cleans its own VM up, provision row
      included. */
  lemma LateAnswerCleansUp(s: State, pid: Pid, l: LabId)
    requires pid !in s.procs && l in s.posts && s.posts[l] == Made
    requires l in s.provisions && !s.provisions[l].claimed && !Awaits(s, l.workspace, l.generation)
    ensures Reaches(Goto(s, pid, Posting(l)), s.(provisions := s.provisions - {l}, live := s.live - {l}))
  {
    hide Reaches;
    var s0, u := Goto(s, pid, Posting(l)), WithProvision(s, l, s.provisions[l].(settled := true));
    ReachesItself(s0);
    GoesOn(s0, s, pid, Posting(l), true, None, NoWrite, Settle(l));
    GoesOn(s0, s, pid, Settle(l), true, None, PutProvision(l, u.provisions[l]), Attach(l));
    LateTaskCleansUp(s0, u, pid, l);
    assert u.provisions - {l} == s.provisions - {l};
  }

  lemma LateTaskCleansUp(s0: State, s: State, pid: Pid, l: LabId)
    requires pid !in s.procs && l in s.provisions && !s.provisions[l].claimed && s.provisions[l].settled
    requires !Awaits(s, l.workspace, l.generation) && Reaches(s0, Goto(s, pid, Attach(l)))
    ensures Reaches(s0, s.(provisions := s.provisions - {l}, live := s.live - {l}))
  {
    hide Reaches;
    GoesOn(s0, s, pid, Attach(l), true, None, NoWrite, Claim(l));
    CleanupClaims(s0, s, pid, l);
    CleanupEnds(s0, s, pid, l);
  }

  // ----- what every step stamps -----

  /** A row becomes CREATING under the present time and the next provision generation, RUNNING
      under the VM of that generation or the one it has, and STOPPED and ERROR and RESETTING
      with the VM it has.  While the status stays, only the time of the next reset changes. */
  predicate RowStamped(a: WorkspaceRow, b: WorkspaceRow, w: WorkspaceId, now: nat) {
    if a.status == b.status then b == a.(retryAt := b.retryAt)
    else
      b.enrollment == a.enrollment &&
      match b.status
      case Creating => b.startedAt == Some(now) && b.generation == a.generation + 1 && b.labId == a.labId
      case Running =>
        if a.status == Creating then b.labId == Some(LabId(w, a.generation)) && b.startedAt.None? && b.generation == a.generation
        else a.status == Stopped && b.labId == a.labId && b.generation == a.generation
      case Stopped => a.status == Running && b.labId == a.labId && b.generation == a.generation
      case _ => b.labId == a.labId && b.generation == a.generation
  }

  predicate RowsStamped(s: State, t: State) {
    forall w <- t.workspaces ::
      if w in s.workspaces then RowStamped(s.workspaces[w], t.workspaces[w], w, s.now)
      else t.workspaces[w].status == Creating && t.workspaces[w].startedAt == Some(s.now)
           && t.workspaces[w].generation == 0 && t.workspaces[w].labId.None?
  }

  /** A reservation is stored with the POST it announces, to be looked at 210 seconds later. */
  predicate ReservationsStamped(s: State, t: State) {
    forall l <- t.provisions :: l !in s.provisions ==>
      && t.provisions[l] == Provision(false, false, s.now + 210_000)
      && l in t.posts && t.posts[l] == Open
      && Awaits(s, l.workspace, l.generation)
  }

  predicate WriteStamped(s: State, x: Write) {
    match x
    case PutRow(w, row) => w in s.workspaces && RowStamped(s.workspaces[w], row, w, s.now)
    case NewRow(w, row) =>
      w !in s.usedIds && row.status == Creating && row.startedAt == Some(s.now) && row.generation == 0 && row.labId.None?
    case _ => true
  }

  lemma MoveIsStamped(s: State, p: Proc, ok: bool, w: Option<WorkspaceId>)
    ensures WriteStamped(s, MoveOf(s, p, ok, w).write)
  {
    hide Finds, Current;
  }

  lemma WriteStamps(s: State, x: Write)
    requires TablesBasic(s) && Fine(s, x) && WriteStamped(s, x)
    ensures RowsStamped(s, Apply(s, x)) && ReservationsStamped(s, Apply(s, x))
  {
    hide RowsApart, NamesOk;
    match x
    case NewRow(w, _) => assert w !in s.workspaces by { RowNeedsId(s, w); }
    case _ =>
  }

  lemma RowNeedsId(s: State, w: WorkspaceId)
    requires TablesBasic(s) && w !in s.usedIds
    ensures w !in s.workspaces
  {
    hide RowsApart, NamesOk;
    if w in s.workspaces {
      RowIsBasic(s, w);
    }
  }

  lemma AdvanceStamps(s: State, pid: Pid, ok: bool, w: Option<WorkspaceId>)
    requires Basic(s) && pid in s.procs
    ensures var t := AdvanceStep(s, pid, ok, w); RowsStamped(s, t) && ReservationsStamped(s, t)
  {
    hide TablesBasic, MoveOf, Apply, Fine, WriteStamped, RowStamped;
    var p := s.procs[pid];
    assert ProcBasic(s, p);
    MoveIsFine(s, p, ok, w);
    MoveIsStamped(s, p, ok, w);
    WriteStamps(s, MoveOf(s, p, ok, w).write);
  }

  lemma StepStamps(s: State, a: Action)
    requires Basic(s)
    ensures RowsStamped(s, Step(s, a)) && ReservationsStamped(s, Step(s, a))
  {
    hide TablesBasic, ProcBasic, AdvanceStep, FirstMove;
    if a.Advance? && a.pid in s.procs {
      AdvanceStamps(s, a.pid, a.ok, a.w);
    }
  }

  /** Every step of every run keeps to this. */
  lemma EveryStepStamps(run: seq<Action>, a: Action)
    ensures var s := Run(INITIAL, run); RowsStamped(s, Step(s, a)) && ReservationsStamped(s, Step(s, a))
  {
    hide Run, Step, Basic, RowsStamped, ReservationsStamped;
    InitialIsBasic();
    RunKeepsBasic(INITIAL, run);
    StepStamps(Run(INITIAL, run), a);
  }

  /** Enrolling makes the course active again and leaves its generation; leaving it inactive
      does the same the other way round. */
  lemma EnrollmentsAreSwitched(s: State, e: EnrollmentId)
    ensures e in s.enrollments ==>
              && Step(s, Enroll(e)) == s.(enrollments := s.enrollments[e := Enrollment(s.enrollments[e].generation, true)])
              && Step(s, Deactivate(e)) == s.(enrollments := s.enrollments[e := Enrollment(s.enrollments[e].generation, false)])
    ensures e !in s.enrollments ==>
              && Step(s, Enroll(e)) == s.(enrollments := s.enrollments[e := Enrollment(0, true)])
              && Step(s, Deactivate(e)) == s
  {
  }
}
