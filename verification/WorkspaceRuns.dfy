/** What holds of every run of the VM lifecycle, without any hypothesis: rows only move
    forward, reservations are current, and a claimed VM is attached only after its name has
    been reserved again.  Each step is one write (`Fine`) and one move of a process. */
module WorkspaceRuns {
  import opened Options
  import opened Workspace

  // ----- the invariant of all runs -----

  ghost predicate RowBasic(s: State, w: WorkspaceId)
    requires w in s.workspaces
  {
    var row := s.workspaces[w];
    && w in s.usedIds
    && row.enrollment in s.enrollments
    && (row.status == Running || row.status == Stopped ==> row.labId.Some?)
    && (row.labId.Some? ==>
          var l := row.labId.value;
          && l.workspace == w && l.generation <= row.generation
          && (row.status == Creating ==> l.generation < row.generation)
          && l in s.reservedFor && l !in s.provisions)
  }

  /** Names are reserved under the generation of their workspace or an earlier one. */
  ghost predicate NamesOk(s: State) {
    && s.posts.Keys == s.reservedFor.Keys && s.provisions.Keys <= s.reservedFor.Keys
    && forall l <- s.reservedFor ::
         l.workspace in s.usedIds &&
         (l.workspace in s.workspaces ==> l.generation <= s.workspaces[l.workspace].generation)
  }

  ghost predicate RowsApart(s: State) {
    forall v <- s.workspaces, w <- s.workspaces ::
      s.workspaces[v].enrollment == s.workspaces[w].enrollment ==> v == w
  }

  ghost predicate TablesBasic(s: State) {
    (forall w <- s.workspaces :: RowBasic(s, w)) && NamesOk(s) && RowsApart(s)
  }

  ghost predicate ResetAt(s: State, w: WorkspaceId, l: LabId) {
    w in s.usedIds && l.workspace == w &&
    (w in s.workspaces ==> s.workspaces[w].status == Resetting && ResetTarget(w, s.workspaces[w]) == l)
  }

  ghost predicate ProcBasic(s: State, p: Proc) {
    match p
    case CreateRead(e, _) => e in s.enrollments
    case CreateInsert(e, _) => e in s.enrollments
    case Schedule(w, e, g, _) =>
      w in s.usedIds && (w in s.workspaces ==> s.workspaces[w].enrollment == e && g <= s.workspaces[w].generation)
    case ResetDelete(w, l) => ResetAt(s, w, l)
    case ResetConfirm(w, l) => ResetAt(s, w, l)
    case ResetDrop(w) => w in s.usedIds && (w in s.workspaces ==> s.workspaces[w].status == Resetting)
    case _ => true
  }

  ghost predicate Basic(s: State) {
    TablesBasic(s) && forall pid <- s.procs :: ProcBasic(s, s.procs[pid])
  }

  // ----- what is never taken back -----

  ghost predicate RowProgress(s: State, t: State) {
    && s.usedIds <= t.usedIds
    && (forall w <- t.workspaces :: w in s.usedIds ==> w in s.workspaces)
    && (forall w <- t.workspaces :: w in s.workspaces ==>
          && t.workspaces[w].enrollment == s.workspaces[w].enrollment
          && t.workspaces[w].generation >= s.workspaces[w].generation
          && (s.workspaces[w].status == Resetting ==>
                t.workspaces[w].status == Resetting && t.workspaces[w].labId == s.workspaces[w].labId))
    && (forall e <- s.enrollments :: e in t.enrollments && t.enrollments[e].generation >= s.enrollments[e].generation)
    && s.reservedFor.Keys <= t.reservedFor.Keys
    && s.now <= t.now
  }

  /** A VM that will be deleted and that nothing can attach. */
  predicate Doomed(s: State, l: LabId) {
    && l in s.reservedFor
    && (l in s.provisions ==> s.provisions[l].claimed)
    && !Holds(s, l.workspace, l)
  }

  /** The name that a step reserves. */
  function NameReserved(s: State, a: Action): Option<LabId> {
    if a.Advance? && a.pid in s.procs then
      var x := MoveOf(s, s.procs[a.pid], a.ok, a.w).write;
      if x.Reserve? then Some(x.l) else None
    else None
  }

  // ----- writes -----

  predicate RowMayBecome(before: WorkspaceRow, after: WorkspaceRow) {
    && after.enrollment == before.enrollment
    && after.labId == before.labId
    && after.generation >= before.generation
    && (before.status == Resetting ==> after.status == Resetting)
    && (after.status == Running || after.status == Stopped ==> after.labId.Some?)
    && (after.status == Creating ==> before.status == Creating || after.generation > before.generation)
  }

  /** What the guards of the statements make sure of. */
  predicate Fine(s: State, x: Write) {
    match x
    case NoWrite => true
    case PutRow(w, row) => w in s.workspaces && RowMayBecome(s.workspaces[w], row)
    case NewRow(w, row) =>
      w !in s.usedIds && row.enrollment in s.enrollments && Finds(s, row.enrollment, None)
      && row.status == Creating && row.labId == None
    case DropRow(w) => HasStatus(s, w, Resetting)
    case Reserve(l, _) => Awaits(s, l.workspace, l.generation) && l !in s.provisions
    case PutProvision(l, row) => l in s.provisions && (s.provisions[l].claimed ==> row.claimed)
    case TakeProvision(l) => l in s.provisions && s.provisions[l].claimed
    case AttachVm(l, row) =>
      l in s.provisions && !s.provisions[l].claimed && Awaits(s, l.workspace, l.generation)
      && row == s.workspaces[l.workspace].(status := Running, startedAt := None, labId := Some(l))
    case KillVm(_) => true
  }

  lemma RowIsBasic(s: State, w: WorkspaceId)
    requires TablesBasic(s) && w in s.workspaces
    ensures RowBasic(s, w)
  {
  }

  lemma RowsStayBasic(s: State, x: Write)
    requires TablesBasic(s) && Fine(s, x)
    ensures var t := Apply(s, x); forall w <- t.workspaces :: RowBasic(t, w)
  {
    hide RowsApart;
    assert s.provisions.Keys <= s.reservedFor.Keys;
    hide NamesOk;
    var t := Apply(s, x);
    forall w <- t.workspaces ensures RowBasic(t, w) {
      if w in s.workspaces {
        assert RowBasic(s, w);
      }
    }
  }

  lemma NamesStayOk(s: State, x: Write)
    requires TablesBasic(s) && Fine(s, x)
    ensures NamesOk(Apply(s, x)) && RowsApart(Apply(s, x))
  {
    hide RowMayBecome;
    match x
    case PutRow(w, row) => assert RowMayBecome(s.workspaces[w], row); RowKeepsNames(s.workspaces[w], row);
    case Reserve(l, _) => assert RowBasic(s, l.workspace);
    case _ =>
  }

  lemma RowKeepsNames(before: WorkspaceRow, after: WorkspaceRow)
    requires RowMayBecome(before, after)
    ensures after.generation >= before.generation && after.enrollment == before.enrollment
  {
  }

  lemma FineKeepsTables(s: State, x: Write)
    requires TablesBasic(s) && Fine(s, x)
    ensures TablesBasic(Apply(s, x))
  {
    hide Fine, Apply, RowBasic, NamesOk, RowsApart;
    RowsStayBasic(s, x);
    NamesStayOk(s, x);
  }

  lemma FineProgresses(s: State, x: Write)
    requires TablesBasic(s) && Fine(s, x)
    ensures RowProgress(s, Apply(s, x))
  {
    hide NamesOk, RowsApart;
    match x
    case PutRow(w, _) => assert RowBasic(s, w);
    case AttachVm(l, _) => assert RowBasic(s, l.workspace);
    case NewRow(w, _) => assert w in s.workspaces ==> RowBasic(s, w);
    case _ =>
  }

  /** Only a new reservation saves a doomed VM. */
  lemma FineKeepsDoomed(s: State, x: Write, l: LabId)
    requires TablesBasic(s) && Fine(s, x) && Doomed(s, l) && !(x.Reserve? && x.l == l)
    ensures Doomed(Apply(s, x), l)
  {
    hide NamesOk, RowsApart;
  }

  // ----- moves -----

  /** A move writes only what its statement guards, and the next control point may rely on
      what it saw. */
  ghost predicate FineMove(s: State, m: Move) {
    Fine(s, m.write) && (m.next.Some? ==> ProcBasic(Apply(s, m.write), m.next.value))
  }

  lemma CreateIsFine(s: State, p: Proc, w: Option<WorkspaceId>)
    requires TablesBasic(s) && ProcBasic(s, p)
    requires p.CreateRead? || p.CreateInsert? || p.CreateRevive? || p.Reread?
    ensures FineMove(s, CreateMove(s, p, w))
  {
    hide NamesOk, RowsApart;
    if p.Reread? && p.w in s.workspaces {
      RowIsBasic(s, p.w);
    }
  }

  lemma ProvisionIsFine(s: State, p: Proc, ok: bool)
    requires TablesBasic(s) && ProcBasic(s, p)
    requires p.Schedule? || p.Posting? || p.Settle? || p.Attach?
    ensures FineMove(s, ProvisionMove(s, p, ok))
  {
    hide NamesOk, RowsApart, RowBasic;
  }

  lemma CleanupIsFine(s: State, p: Proc, ok: bool)
    requires p.Claim? || p.ReadProvision? || p.DeleteVm? || p.ConfirmVm? || p.DropProvision? || p.CleanupFailed?
    ensures FineMove(s, CleanupMove(s, p, ok))
  {
  }

  lemma ResetIsFine(s: State, p: Proc, ok: bool)
    requires TablesBasic(s) && ProcBasic(s, p)
    requires p.ResetRead? || p.ResetDefer? || p.ResetDelete? || p.ResetConfirm? || p.ResetDrop? || p.ResetFailed?
    ensures FineMove(s, ResetMove(s, p, ok))
  {
    hide NamesOk, RowsApart;
    if p.ResetRead? && p.w in s.workspaces {
      RowIsBasic(s, p.w);
    }
  }

  lemma StopIsFine(s: State, p: Proc, ok: bool)
    requires TablesBasic(s)
    requires p.StopVm? || p.StopDone? || p.MarkMissing? || p.Expire?
    ensures FineMove(s, StopMove(s, p, ok))
  {
    hide NamesOk, RowsApart;
    if !p.StopVm? && p.w in s.workspaces {
      RowIsBasic(s, p.w);
    }
  }

  lemma StartIsFine(s: State, p: Proc, ok: bool, w: Option<WorkspaceId>)
    requires TablesBasic(s)
    requires p.StartRead? || p.StartVm? || p.StartDone? || p.Rebuild?
    ensures FineMove(s, StartMove(s, p, ok, w))
  {
    hide NamesOk, RowsApart;
    if !p.StartRead? && p.w in s.workspaces {
      RowIsBasic(s, p.w);
    }
  }

  lemma MoveIsFine(s: State, p: Proc, ok: bool, w: Option<WorkspaceId>)
    requires TablesBasic(s) && ProcBasic(s, p)
    ensures FineMove(s, MoveOf(s, p, ok, w))
  {
    hide CreateMove, ProvisionMove, CleanupMove, ResetMove, StopMove, StartMove, FineMove, TablesBasic, ProcBasic;
    if p.CreateRead? || p.CreateInsert? || p.CreateRevive? || p.Reread? {
      CreateIsFine(s, p, w);
    } else if p.Schedule? || p.Posting? || p.Settle? || p.Attach? {
      ProvisionIsFine(s, p, ok);
    } else if p.Claim? || p.ReadProvision? || p.DeleteVm? || p.ConfirmVm? || p.DropProvision? || p.CleanupFailed? {
      CleanupIsFine(s, p, ok);
    } else if p.ResetRead? || p.ResetDefer? || p.ResetDelete? || p.ResetConfirm? || p.ResetDrop? || p.ResetFailed? {
      ResetIsFine(s, p, ok);
    } else if p.StopVm? || p.StopDone? || p.MarkMissing? || p.Expire? {
      StopIsFine(s, p, ok);
    } else {
      StartIsFine(s, p, ok, w);
    }
  }

  // ----- steps -----

  lemma ProcsStayBasic(s: State, t: State, p: Proc)
    requires ProcBasic(s, p) && RowProgress(s, t)
    ensures ProcBasic(t, p)
  {
  }

  /** Control points and clocks, VMs and POSTs do not matter to the rows. */
  predicate SameRows(s: State, t: State) {
    && t.workspaces == s.workspaces && t.provisions == s.provisions && t.usedIds == s.usedIds
    && t.posts.Keys == s.posts.Keys && t.reservedFor == s.reservedFor
    && t.enrollments.Keys == s.enrollments.Keys && s.now <= t.now
    && forall e <- s.enrollments :: t.enrollments[e].generation == s.enrollments[e].generation
  }

  lemma SameRowsBasic(s: State, t: State)
    requires TablesBasic(s) && SameRows(s, t)
    ensures TablesBasic(t) && RowProgress(s, t)
  {
    forall w <- t.workspaces ensures RowBasic(t, w) {
      assert RowBasic(s, w);
    }
  }

  lemma ProcIgnoresProcs(s: State, t: State, p: Proc)
    requires ProcBasic(s, p) && t == s.(procs := t.procs)
    ensures ProcBasic(t, p)
  {
  }

  lemma RowProgressTransitive(s: State, t: State, u: State)
    requires TablesBasic(s) && RowProgress(s, t) && RowProgress(t, u)
    ensures RowProgress(s, u)
  {
    assert forall w <- s.workspaces :: RowBasic(s, w);
  }

  lemma AdvanceKeepsBasic(s: State, pid: Pid, ok: bool, w: Option<WorkspaceId>)
    requires Basic(s) && pid in s.procs
    ensures Basic(AdvanceStep(s, pid, ok, w)) && RowProgress(s, AdvanceStep(s, pid, ok, w))
  {
    hide TablesBasic, ProcBasic, RowProgress, Fine, Apply, MoveOf;
    var m := MoveOf(s, s.procs[pid], ok, w);
    MoveIsFine(s, s.procs[pid], ok, w);
    FineKeepsTables(s, m.write);
    FineProgresses(s, m.write);
    LandKeepsBasic(s, pid, Apply(s, m.write), m.next) by {
      ApplyKeepsProcs(s, m.write);
    }
  }

  lemma ApplyKeepsProcs(s: State, x: Write)
    ensures Apply(s, x).procs == s.procs
  {
  }

  lemma LandKeepsBasic(s: State, pid: Pid, u: State, next: Option<Proc>)
    requires Basic(s) && TablesBasic(u) && RowProgress(s, u) && u.procs == s.procs
    requires next.Some? ==> ProcBasic(u, next.value)
    ensures Basic(Land(u, pid, next)) && RowProgress(s, Land(u, pid, next))
  {
    hide TablesBasic, ProcBasic, RowProgress;
    var t := Land(u, pid, next);
    SameRowsBasic(u, t);
    RowProgressTransitive(s, u, t);
    forall q <- t.procs ensures ProcBasic(t, t.procs[q]) {
      if q == pid {
        ProcIgnoresProcs(u, t, next.value);
      } else {
        ProcsStayBasic(s, t, s.procs[q]);
      }
    }
  }

  lemma OutsideKeepsBasic(s: State, t: State)
    requires Basic(s) && t.procs == s.procs && TablesBasic(t) && RowProgress(s, t)
    ensures Basic(t)
  {
    hide TablesBasic, ProcBasic, RowProgress;
    forall q <- t.procs ensures ProcBasic(t, t.procs[q]) {
      ProcsStayBasic(s, t, s.procs[q]);
    }
  }

  lemma EnrollmentKeepsBasic(s: State, t: State, e: EnrollmentId, row: Enrollment)
    requires TablesBasic(s) && (e in s.enrollments ==> row.generation >= s.enrollments[e].generation)
    requires t == s.(enrollments := s.enrollments[e := row])
    ensures TablesBasic(t) && RowProgress(s, t)
  {
    forall w <- t.workspaces ensures RowBasic(t, w) {
      assert RowBasic(s, w);
    }
  }

  lemma RestartKeepsBasic(s: State, e: EnrollmentId, w: Option<WorkspaceId>)
    requires TablesBasic(s)
    ensures TablesBasic(RestartTx(s, e, w)) && RowProgress(s, RestartTx(s, e, w))
  {
    hide TablesBasic, RowProgress;
    if e in s.enrollments && Finds(s, e, w) {
      var s1 := s.(enrollments := s.enrollments[e := Enrollment(s.enrollments[e].generation + 1, false)]);
      EnrollmentKeepsBasic(s, s1, e, s1.enrollments[e]);
      if w.Some? {
        var x := PutRow(w.value, s1.workspaces[w.value].(status := Resetting, retryAt := None));
        FineKeepsTables(s1, x);
        FineProgresses(s1, x);
        RowProgressTransitive(s, s1, Apply(s1, x));
      }
    } else {
      SameRowsBasic(s, s);
    }
  }

  lemma FirstIsBasic(s: State, r: Request)
    ensures FirstMove(s, r).Some? ==> ProcBasic(s, FirstMove(s, r).value)
  {
  }

  lemma StepKeepsBasic(s: State, a: Action)
    requires Basic(s)
    ensures Basic(Step(s, a)) && RowProgress(s, Step(s, a))
  {
    hide TablesBasic, ProcBasic, RowProgress, AdvanceStep, RestartTx, FirstMove;
    var t := Step(s, a);
    SameRowsBasic(s, s);
    match a
    case Begin(pid, r) =>
      FirstIsBasic(s, r);
      if pid !in s.procs && FirstMove(s, r).Some? {
        LandKeepsBasic(s, pid, s, FirstMove(s, r));
      }
    case Advance(pid, ok, w) =>
      if pid in s.procs {
        AdvanceKeepsBasic(s, pid, ok, w);
      }
    case Crash(pid) => LandKeepsBasic(s, pid, s, None);
    case Enroll(e) => EnrollmentKeepsBasic(s, t, e, t.enrollments[e]); OutsideKeepsBasic(s, t);
    case Deactivate(e) =>
      if e in s.enrollments {
        EnrollmentKeepsBasic(s, t, e, t.enrollments[e]);
        OutsideKeepsBasic(s, t);
      }
    case Restart(e, w) =>
      RestartKeepsBasic(s, e, w);
      RestartSparesLabs(s, e, w);
      OutsideKeepsBasic(s, t);
    case _ => LabsKeepRows(s, a); SameRowsBasic(s, t); OutsideKeepsBasic(s, t);
  }

  lemma LabsKeepRows(s: State, a: Action)
    requires a.LabsMakes? || a.LabsRefuses? || a.LabsLoses? || a.Tick?
    ensures SameRows(s, Step(s, a)) && Step(s, a).procs == s.procs
  {
    hide AdvanceStep, BeginStep, RestartTx;
    if a.LabsMakes? && a.l in s.posts {
      assert s.posts[a.l := Made].Keys == s.posts.Keys;
    } else if a.LabsRefuses? && a.l in s.posts {
      assert s.posts[a.l := Refused].Keys == s.posts.Keys;
    }
  }

  lemma RestartSparesLabs(s: State, e: EnrollmentId, w: Option<WorkspaceId>)
    ensures var t := RestartTx(s, e, w);
            && t.provisions == s.provisions && t.live == s.live && t.reservedFor == s.reservedFor
            && t.posts == s.posts && t.procs == s.procs && t.usedIds == s.usedIds && t.now == s.now
            && t.workspaces.Keys == s.workspaces.Keys
            && forall v <- s.workspaces :: t.workspaces[v].labId == s.workspaces[v].labId
                 && (t.workspaces[v] == s.workspaces[v] || t.workspaces[v].status == Resetting)
  {
  }

  lemma StepKeepsDoomed(s: State, a: Action, l: LabId)
    requires Basic(s) && Doomed(s, l) && NameReserved(s, a) != Some(l)
    ensures Doomed(Step(s, a), l)
  {
    hide TablesBasic, ProcBasic, RestartTx, FirstMove, MoveOf, Apply;
    if a.Advance? && a.pid in s.procs {
      var m := MoveOf(s, s.procs[a.pid], a.ok, a.w);
      hide Fine;
      MoveIsFine(s, s.procs[a.pid], a.ok, a.w);
      FineKeepsDoomed(s, m.write, l);
    } else if a.Restart? {
      RestartSparesLabs(s, a.e, a.w);
    }
  }

  lemma {:induction false} RunKeepsBasic(s: State, run: seq<Action>)
    requires Basic(s)
    ensures Basic(Run(s, run)) && RowProgress(s, Run(s, run))
    decreases |run|
  {
    hide TablesBasic, ProcBasic, RowProgress, Step;
    if run == [] {
      SameRowsBasic(s, s);
    } else {
      StepKeepsBasic(s, run[0]);
      RunKeepsBasic(Step(s, run[0]), run[1..]);
      RowProgressTransitive(s, Step(s, run[0]), Run(s, run));
    }
  }

  lemma InitialIsBasic()
    ensures Basic(INITIAL)
  {
  }

  // ----- theorems about all runs -----

  /** Fencing over whole runs.  Between any two points of any run: a surviving row keeps
      its enrollment and never goes back in provision generation; RESETTING is left
      only by deleting the row, and keeps the VM to delete; a deleted workspace id
      never returns; and RUNNING or STOPPED means the row has a VM. */
  lemma RowsOnlyMoveForward(run: seq<Action>, more: seq<Action>, w: WorkspaceId)
    ensures var s := Run(INITIAL, run); var t := Run(s, more);
            && (w in s.workspaces && w in t.workspaces ==>
                  && t.workspaces[w].enrollment == s.workspaces[w].enrollment
                  && t.workspaces[w].generation >= s.workspaces[w].generation
                  && (s.workspaces[w].status == Resetting ==>
                        t.workspaces[w].status == Resetting && t.workspaces[w].labId == s.workspaces[w].labId))
            && (w in s.usedIds && w !in s.workspaces ==> w !in t.workspaces)
            && (HasStatus(t, w, Running) || HasStatus(t, w, Stopped) ==> t.workspaces[w].labId.Some?)
  {
    hide Run, NamesOk, RowsApart, ProcBasic;
    InitialIsBasic();
    RunKeepsBasic(INITIAL, run);
    RunKeepsBasic(Run(INITIAL, run), more);
    if w in Run(Run(INITIAL, run), more).workspaces {
      RowIsBasic(Run(Run(INITIAL, run), more), w);
    }
  }

  /** After a restart commits, nothing is reserved for an older enrollment generation:
      whatever step of a later run puts a provision row there, for the first time or again,
      does so for the generation that the enrollment of the workspace has at that moment. */
  lemma LateReservationsAreCurrent(run: seq<Action>, more: seq<Action>, a: Action, l: LabId)
    requires var u := Run(Run(INITIAL, run), more); l !in u.provisions && l in Step(u, a).provisions
    ensures var s := Run(INITIAL, run); var u := Run(s, more); var t := Step(u, a);
            && l.workspace in u.workspaces && l in t.reservedFor
            && var e := u.workspaces[l.workspace].enrollment;
               Current(u, e, t.reservedFor[l]) && (e in s.enrollments ==> t.reservedFor[l] >= s.enrollments[e].generation)
  {
    hide Run, TablesBasic, ProcBasic, Step;
    InitialIsBasic();
    RunKeepsBasic(INITIAL, run);
    RunKeepsBasic(Run(INITIAL, run), more);
    StepReserves(Run(Run(INITIAL, run), more), a, l);
  }

  lemma StepReserves(s: State, a: Action, l: LabId)
    requires Basic(s) && l !in s.provisions && l in Step(s, a).provisions
    ensures NameReserved(s, a) == Some(l) && l.workspace in s.workspaces && l in Step(s, a).reservedFor
    ensures Current(s, s.workspaces[l.workspace].enrollment, Step(s, a).reservedFor[l])
  {
    hide TablesBasic, RestartTx, FirstMove, ScheduleTx, AttachTx, ClaimProvision, DropTx, ReadForReset;
    if a.Restart? {
      RestartSparesLabs(s, a.e, a.w);
    } else if a.Advance? && a.pid in s.procs {
      var p := s.procs[a.pid];
      OnlyScheduleReserves(s, p, a.ok, a.w);
      assert ProcBasic(s, p);
      hide MoveOf;
      var x := MoveOf(s, p, a.ok, a.w).write;
      hide ProcBasic;
      MoveIsFine(s, p, a.ok, a.w);
      OnlyReserveAdds(s, x, l);
    }
  }

  lemma OnlyReserveAdds(s: State, x: Write, l: LabId)
    requires Fine(s, x) && l !in s.provisions && l in Apply(s, x).provisions
    ensures x.Reserve? && x.l == l && Apply(s, x).reservedFor == s.reservedFor[l := x.eg]
  {
  }

  lemma OnlyScheduleReserves(s: State, p: Proc, ok: bool, w: Option<WorkspaceId>)
    ensures var m := MoveOf(s, p, ok, w);
            m.write.Reserve? ==>
              && p.Schedule? && m.write == Reserve(LabId(p.w, p.g), p.eg) && m.next == Some(Posting(LabId(p.w, p.g)))
              && Current(s, p.e, p.eg) && Awaits(s, p.w, p.g) && LabId(p.w, p.g) !in s.provisions
  {
    hide Finds, Current, Awaits, HasStatus;
  }

  /** A run that never reserves this name. */
  predicate LeavesName(s: State, run: seq<Action>, l: LabId)
    decreases |run|
  {
    run != [] ==> NameReserved(s, run[0]) != Some(l) && LeavesName(Step(s, run[0]), run[1..], l)
  }

  lemma {:induction false} RunKeepsDoomed(s: State, run: seq<Action>, l: LabId)
    requires Basic(s) && Doomed(s, l) && LeavesName(s, run, l)
    ensures Doomed(Run(s, run), l)
    decreases |run|
  {
    hide Basic, Doomed, Step, NameReserved;
    if run != [] {
      StepKeepsBasic(s, run[0]);
      StepKeepsDoomed(s, run[0], l);
      RunKeepsDoomed(Step(s, run[0]), run[1..], l);
    }
  }

  lemma ClaimedIsDoomed(s: State, l: LabId)
    requires TablesBasic(s) && l in s.provisions && s.provisions[l].claimed
    ensures Doomed(s, l)
  {
    if l.workspace in s.workspaces {
      RowIsBasic(s, l.workspace);
    }
  }

  /** Attachment and cleanup never both win: once a row has been claimed for cleanup, no
      continuation makes its VM the `labId` of a workspace, even after the row is gone,
      unless the name itself is reserved again. */
  lemma ClaimedIsNeverAttached(run: seq<Action>, more: seq<Action>, l: LabId, w: WorkspaceId)
    requires l in Run(INITIAL, run).provisions && Run(INITIAL, run).provisions[l].claimed
    requires LeavesName(Run(INITIAL, run), more, l)
    ensures !Holds(Run(Run(INITIAL, run), more), w, l)
  {
    hide Run, ProcBasic, NamesOk, RowsApart;
    var s := Run(INITIAL, run);
    InitialIsBasic();
    RunKeepsBasic(INITIAL, run);
    ClaimedIsDoomed(s, l);
    RunKeepsDoomed(s, more, l);
    RunKeepsBasic(s, more);
    if w in Run(s, more).workspaces {
      RowIsBasic(Run(s, more), w);
    }
  }

  /** Whatever becomes of an older attempt, it leaves the row of a newer one alone:
      a background task for provision generation g changes the workspace row only
      while the row is CREATING with exactly that generation. */
  lemma OldCompletionsLeaveTheRow(s: State, a: Action)
    requires a.Advance? && a.pid in s.procs
    requires var p := s.procs[a.pid]; p.Posting? || p.Settle? || p.Attach?
    ensures var l := s.procs[a.pid].l; var t := Step(s, a);
            t.workspaces != s.workspaces ==>
              && Awaits(s, l.workspace, l.generation)
              && t.workspaces == s.workspaces[l.workspace := t.workspaces[l.workspace]]
              && t.workspaces[l.workspace].generation == l.generation
              && (t.workspaces[l.workspace].status == Error
                  || (t.workspaces[l.workspace].status == Running && t.workspaces[l.workspace].labId == Some(l)))
  {
    hide ScheduleTx;
  }
}
