/** What a restart of a course does to the learner's machine, and what follows for the
    machines of all learners: a VM in use always belongs to the current generation. */
module WorkspaceResets {
  import opened Options
  import opened Workspace
  import opened WorkspaceRuns

  // ----- the rows of the sweeper's two queries -----

  function ResetsDue(rows: map<WorkspaceId, WorkspaceRow>, now: nat): set<WorkspaceId> {
    set w <- rows | rows[w].status == Resetting && (rows[w].retryAt.None? || rows[w].retryAt.value <= now)
  }

  function ProvisionsDue(rows: map<LabId, Provision>, now: nat): set<LabId> {
    set l <- rows | rows[l].cleanupAt <= now
  }

  // ----- one restart -----

  /** A step that raises the generation of an enrollment ends it there: the learner's machine
      is RESETTING and due at once, still with its VM; nothing else changes, in particular no
      other machine. */
  lemma RestartResetsTheMachine(s: State, a: Action, e: EnrollmentId)
    requires Basic(s) && e in s.enrollments && e in Step(s, a).enrollments
    requires Step(s, a).enrollments[e].generation != s.enrollments[e].generation
    ensures var t := Step(s, a);
            && t.enrollments[e] == Enrollment(s.enrollments[e].generation + 1, false)
            && t.workspaces.Keys == s.workspaces.Keys
            && forall w <- s.workspaces ::
                 if s.workspaces[w].enrollment != e then t.workspaces[w] == s.workspaces[w]
                 else
                   && t.workspaces[w].status == Resetting && w in ResetsDue(t.workspaces, t.now)
                   && t.workspaces[w].labId == s.workspaces[w].labId
                   && t.workspaces[w].enrollment == e && t.workspaces[w].generation == s.workspaces[w].generation
                   && t.workspaces[w].startedAt == s.workspaces[w].startedAt
    ensures var t := Step(s, a);
            && (forall x <- s.enrollments :: x != e ==> x in t.enrollments && t.enrollments[x].generation == s.enrollments[x].generation)
            && t.provisions == s.provisions && t.live == s.live && t.posts == s.posts && t.procs == s.procs
  {
    hide Basic, Step;
    OnlyRestarts(s, a, e);
    RowsAreApart(s);
    RestartRewrites(s, e, a.w);
  }

  lemma RowsAreApart(s: State)
    requires Basic(s)
    ensures RowsApart(s)
  {
    hide NamesOk, RowBasic, ProcBasic;
  }

  lemma OnlyRestarts(s: State, a: Action, e: EnrollmentId)
    requires e in s.enrollments && e in Step(s, a).enrollments
    requires Step(s, a).enrollments[e].generation != s.enrollments[e].generation
    ensures a.Restart? && a.e == e && Finds(s, e, a.w) && Step(s, a) == RestartTx(s, e, a.w)
  {
    hide BeginStep, AdvanceStep;
    if a.Advance? && a.pid in s.procs {
      AdvanceSparesEnrollments(s, a.pid, a.ok, a.w);
    } else if a.Begin? {
      BeginSparesEnrollments(s, a.pid, a.request);
    }
  }

  lemma RestartRewrites(s: State, e: EnrollmentId, found: Option<WorkspaceId>)
    requires RowsApart(s) && e in s.enrollments && Finds(s, e, found)
    ensures var t := RestartTx(s, e, found);
            && t.enrollments == s.enrollments[e := Enrollment(s.enrollments[e].generation + 1, false)]
            && t.workspaces.Keys == s.workspaces.Keys
            && t.provisions == s.provisions && t.live == s.live && t.posts == s.posts && t.procs == s.procs
            && forall w <- s.workspaces ::
                 if s.workspaces[w].enrollment != e then t.workspaces[w] == s.workspaces[w]
                 else
                   && t.workspaces[w].status == Resetting && w in ResetsDue(t.workspaces, t.now)
                   && t.workspaces[w].labId == s.workspaces[w].labId
                   && t.workspaces[w].enrollment == e && t.workspaces[w].generation == s.workspaces[w].generation
                   && t.workspaces[w].startedAt == s.workspaces[w].startedAt
  {
  }

  lemma AdvanceSparesEnrollments(s: State, pid: Pid, ok: bool, w: Option<WorkspaceId>)
    requires pid in s.procs
    ensures AdvanceStep(s, pid, ok, w).enrollments == s.enrollments
  {
    hide MoveOf, Apply, Land;
    ApplySparesEnrollments(s, MoveOf(s, s.procs[pid], ok, w).write);
    LandSparesEnrollments(Apply(s, MoveOf(s, s.procs[pid], ok, w).write), pid, MoveOf(s, s.procs[pid], ok, w).next);
  }

  lemma ApplySparesEnrollments(s: State, x: Write)
    ensures Apply(s, x).enrollments == s.enrollments
  {
  }

  lemma LandSparesEnrollments(s: State, pid: Pid, next: Option<Proc>)
    ensures Land(s, pid, next).enrollments == s.enrollments
  {
  }

  lemma BeginSparesEnrollments(s: State, pid: Pid, r: Request)
    ensures BeginStep(s, pid, r).enrollments == s.enrollments
  {
    hide FirstMove;
  }

  /** And a learner can always restart. */
  lemma RestartIsPossible(s: State, e: EnrollmentId)
    requires e in s.enrollments
    ensures exists w :: Step(s, Restart(e, w)).enrollments[e].generation == s.enrollments[e].generation + 1
  {
    if w :| w in s.workspaces && s.workspaces[w].enrollment == e {
      assert Finds(s, e, Some(w));
      assert Step(s, Restart(e, Some(w))).enrollments[e].generation == s.enrollments[e].generation + 1;
    } else {
      assert Finds(s, e, None);
      assert Step(s, Restart(e, None)).enrollments[e].generation == s.enrollments[e].generation + 1;
    }
  }

  // ----- over all runs -----

  /** The name belongs to the present generation of the row's enrollment. */
  predicate IsCurrent(s: State, row: WorkspaceRow, l: LabId) {
    row.enrollment in s.enrollments && l in s.reservedFor
    && s.reservedFor[l] == s.enrollments[row.enrollment].generation
  }

  /** A name that its workspace may still be given. */
  predicate MayHold(s: State, l: LabId) {
    l.workspace in s.workspaces && s.workspaces[l.workspace].status != Resetting
    && s.workspaces[l.workspace].generation == l.generation
  }

  /** So are the VMs of all rows that are not being reset, and the names they may still get. */
  ghost predicate VmsCurrent(s: State) {
    && (forall w <- s.workspaces :: s.workspaces[w].status != Resetting && s.workspaces[w].labId.Some? ==>
          IsCurrent(s, s.workspaces[w], s.workspaces[w].labId.value))
    && (forall l <- s.reservedFor :: MayHold(s, l) ==> IsCurrent(s, s.workspaces[l.workspace], l))
  }

  lemma WriteKeepsCurrent(s: State, x: Write)
    requires TablesBasic(s) && VmsCurrent(s) && Fine(s, x)
    requires x.Reserve? ==>
               s.workspaces[x.l.workspace].enrollment in s.enrollments
               && x.eg == s.enrollments[s.workspaces[x.l.workspace].enrollment].generation
    ensures VmsCurrent(Apply(s, x))
  {
    hide RowsApart;
    match x
    case PutRow(w, _) => RowIsBasic(s, w);
    case AttachVm(l, _) => RowIsBasic(s, l.workspace);
    case Reserve(l, _) =>
      forall w <- s.workspaces ensures s.workspaces[w].labId != Some(l) {
        RowIsBasic(s, w);
      }
    case _ =>
  }

  lemma LandKeepsCurrent(s: State, pid: Pid, next: Option<Proc>)
    requires VmsCurrent(s)
    ensures VmsCurrent(Land(s, pid, next))
  {
  }

  lemma AdvanceKeepsCurrent(s: State, pid: Pid, ok: bool, w: Option<WorkspaceId>)
    requires Basic(s) && VmsCurrent(s) && pid in s.procs
    ensures VmsCurrent(AdvanceStep(s, pid, ok, w))
  {
    hide TablesBasic, VmsCurrent, MoveOf, Land, Apply;
    var p := s.procs[pid];
    var m := MoveOf(s, p, ok, w);
    assert ProcBasic(s, p);
    MoveIsFine(s, p, ok, w);
    OnlyScheduleReserves(s, p, ok, w);
    WriteKeepsCurrent(s, m.write);
    LandKeepsCurrent(Apply(s, m.write), pid, m.next);
  }

  lemma RestartKeepsCurrent(s: State, e: EnrollmentId, w: Option<WorkspaceId>)
    requires TablesBasic(s) && VmsCurrent(s)
    ensures VmsCurrent(RestartTx(s, e, w))
  {
    hide NamesOk, RowBasic;
  }

  lemma EnrollmentKeepsCurrent(s: State, t: State)
    requires VmsCurrent(s) && t == s.(enrollments := t.enrollments)
    requires forall e <- s.enrollments :: e in t.enrollments && t.enrollments[e].generation == s.enrollments[e].generation
    ensures VmsCurrent(t)
  {
  }

  lemma LabsKeepCurrent(s: State, t: State)
    requires VmsCurrent(s) && t == s.(posts := t.posts, live := t.live, now := t.now, procs := t.procs)
    ensures VmsCurrent(t)
  {
  }

  lemma StepKeepsCurrent(s: State, a: Action)
    requires Basic(s) && VmsCurrent(s)
    ensures VmsCurrent(Step(s, a))
  {
    hide TablesBasic, ProcBasic, VmsCurrent, AdvanceStep, RestartTx, FirstMove;
    match a
    case Advance(pid, ok, w) => if pid in s.procs { AdvanceKeepsCurrent(s, pid, ok, w); }
    case Restart(e, w) => RestartKeepsCurrent(s, e, w);
    case Enroll(_) => EnrollmentKeepsCurrent(s, Step(s, a));
    case Deactivate(_) => EnrollmentKeepsCurrent(s, Step(s, a));
    case _ => LabsKeepCurrent(s, Step(s, a));
  }

  lemma {:induction false} RunKeepsCurrent(s: State, run: seq<Action>)
    requires Basic(s) && VmsCurrent(s)
    ensures VmsCurrent(Run(s, run))
    decreases |run|
  {
    hide Basic, VmsCurrent, Step;
    if run != [] {
      StepKeepsBasic(s, run[0]);
      StepKeepsCurrent(s, run[0]);
      RunKeepsCurrent(Step(s, run[0]), run[1..]);
    }
  }

  /** In every state of every run the VM of a workspace that is not being reset was reserved
      for the generation its enrollment has now: no machine outlives a restart. */
  lemma VmsBelongToTheGeneration(run: seq<Action>, w: WorkspaceId)
    ensures var s := Run(INITIAL, run);
            w in s.workspaces && s.workspaces[w].status != Resetting && s.workspaces[w].labId.Some? ==>
              && s.workspaces[w].enrollment in s.enrollments
              && s.workspaces[w].labId.value in s.reservedFor
              && s.reservedFor[s.workspaces[w].labId.value] == s.enrollments[s.workspaces[w].enrollment].generation
  {
    hide Run, Basic;
    InitialIsBasic();
    RunKeepsCurrent(INITIAL, run);
  }
}
