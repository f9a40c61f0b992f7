/** Ways to get from one state to another without a race: `Strict` runs neither reserve a
    name again nor declare a live VM missing. */
module WorkspacePaths {
  import opened Options
  import opened Workspace
  import opened WorkspaceRuns
  import opened WorkspaceSafety

  predicate Strict(s: State, a: Action) {
    !ReservesAgain(s, a) && !DeclaresLiveMissing(s, a)
  }

  predicate StrictRun(s: State, run: seq<Action>)
    decreases |run|
  {
    run != [] ==> Strict(s, run[0]) && StrictRun(Step(s, run[0]), run[1..])
  }

  lemma {:induction false} StrictIsFenced(s: State, run: seq<Action>)
    requires StrictRun(s, run)
    ensures FencedRun(s, run) && CarefulRun(s, run)
    decreases |run|
  {
    hide Step, ReservesAgain, DeclaresLiveMissing, Forgotten;
    if run != [] {
      StrictIsFenced(Step(s, run[0]), run[1..]);
    }
  }

  function Revived(s: State, w: WorkspaceId): State
    requires w in s.workspaces
  {
    Apply(s, Revive(s, w))
  }

  function SetStatus(s: State, w: WorkspaceId, status: Status): State
    requires w in s.workspaces
  {
    Apply(s, PutStatus(s, w, status))
  }

  function Reserved(s: State, l: LabId, eg: nat): State {
    Apply(s, Reserve(l, eg))
  }

  /** Some strict run leads from `s` to `t`. */
  ghost predicate Reaches(s: State, t: State) {
    exists run: seq<Action> :: StrictRun(s, run) && Run(s, run) == t
  }

  lemma {:induction false} RunAppend(s: State, a: seq<Action>, b: seq<Action>)
    ensures Run(s, a + b) == Run(Run(s, a), b)
    ensures StrictRun(s, a + b) <==> StrictRun(s, a) && StrictRun(Run(s, a), b)
    decreases |a|
  {
    hide Strict, Step;
    if a == [] {
      assert a + b == b;
    } else {
      assert (a + b)[0] == a[0] && (a + b)[1..] == a[1..] + b;
      RunAppend(Step(s, a[0]), a[1..], b);
    }
  }

  lemma ReachesTransitive(s: State, t: State, u: State)
    requires Reaches(s, t) && Reaches(t, u)
    ensures Reaches(s, u)
  {
    hide Strict, Step, StrictRun, Run;
    var a: seq<Action> :| StrictRun(s, a) && Run(s, a) == t;
    var b: seq<Action> :| StrictRun(t, b) && Run(t, b) == u;
    RunAppend(s, a, b);
    assert StrictRun(s, a + b) && Run(s, a + b) == u;
  }

  lemma ReachesStep(s: State, a: Action, t: State)
    requires Strict(s, a) && Step(s, a) == t
    ensures Reaches(s, t)
  {
    hide Strict, Step;
    assert Run(t, []) == t && StrictRun(t, []);
    assert [a][1..] == [];
    assert StrictRun(s, [a]) && Run(s, [a]) == t;
  }

  lemma ReachesAfter(s: State, t: State, a: Action, u: State)
    requires Reaches(s, t) && Strict(t, a) && Step(t, a) == u
    ensures Reaches(s, u)
  {
    hide Strict, Step, Reaches;
    ReachesStep(t, a, u);
    ReachesTransitive(s, t, u);
  }

  function Go(pid: Pid): Action {
    Advance(pid, true, None)
  }

  lemma GotoOverrides(s: State, pid: Pid, p: Proc, q: Proc)
    ensures Goto(Goto(s, pid, p), pid, q) == Goto(s, pid, q)
    ensures Exit(Goto(s, pid, p), pid) == Exit(s, pid)
    ensures pid !in s.procs ==> Exit(s, pid) == s
  {
    assert s.procs[pid := p][pid := q] == s.procs[pid := q];
    assert s.procs[pid := p] - {pid} == s.procs - {pid};
    if pid !in s.procs {
      assert s.procs - {pid} == s.procs;
    }
  }

  // ----- one uninterrupted `create` on an ERROR row -----

  /** An ERROR row that a learner of the current generation may re-create. */
  predicate Recreatable(s: State, w: WorkspaceId, pid: Pid) {
    && HasStatus(s, w, Error)
    && s.workspaces[w].enrollment in s.enrollments
    && s.enrollments[s.workspaces[w].enrollment].active
    && pid !in s.procs
    && LabId(w, s.workspaces[w].generation + 1) !in s.reservedFor
    && LabId(w, s.workspaces[w].generation + 1) !in s.provisions
  }

  lemma ReadToRevive(s: State, w: WorkspaceId, pid: Pid, eg: nat)
    requires HasStatus(s, w, Error)
    ensures var s1 := Goto(s, pid, CreateRead(s.workspaces[w].enrollment, eg));
            var a := Advance(pid, true, Some(w));
            Strict(s1, a) && Step(s1, a) == Goto(s1, pid, CreateRevive(w, eg))
  {
  }

  lemma ReviveToReread(s: State, w: WorkspaceId, pid: Pid, eg: nat)
    requires HasStatus(s, w, Error)
    ensures var s1 := Goto(s, pid, CreateRevive(w, eg));
            Strict(s1, Go(pid)) && Step(s1, Go(pid)) == Goto(Revived(s1, w), pid, Reread(w, eg, s.workspaces[w].generation + 1))
  {
  }

  lemma RereadToSchedule(s: State, w: WorkspaceId, pid: Pid, eg: nat, wrote: nat)
    requires HasStatus(s, w, Creating)
    ensures var s1 := Goto(s, pid, Reread(w, eg, wrote)); var row := s.workspaces[w];
            Strict(s1, Go(pid)) &&
            Step(s1, Go(pid)) == Goto(s1, pid, Schedule(w, row.enrollment, row.generation, eg))
  {
  }

  lemma BeginToRead(s: State, e: EnrollmentId, pid: Pid)
    requires e in s.enrollments && s.enrollments[e].active && pid !in s.procs
    ensures var a := Begin(pid, CreateRequest(e));
            Strict(s, a) && Step(s, a) == Goto(s, pid, CreateRead(e, s.enrollments[e].generation))
  {
  }

  lemma ReviveReachesReread(s: State, w: WorkspaceId, pid: Pid)
    requires Recreatable(s, w, pid)
    ensures var row := s.workspaces[w];
            Reaches(s, Goto(Revived(s, w), pid,
                            Reread(w, s.enrollments[row.enrollment].generation, row.generation + 1)))
  {
    hide Reaches, Step, Strict;
    var e := s.workspaces[w].enrollment;
    var eg := s.enrollments[e].generation;
    BeginToRead(s, e, pid);
    var s1 := Goto(s, pid, CreateRead(e, eg));
    ReachesStep(s, Begin(pid, CreateRequest(e)), s1);
    ReadToRevive(s, w, pid, eg);
    GotoOverrides(s, pid, CreateRead(e, eg), CreateRevive(w, eg));
    var s2 := Goto(s, pid, CreateRevive(w, eg));
    ReachesAfter(s, s1, Advance(pid, true, Some(w)), s2);
    ReviveToReread(s, w, pid, eg);
    var reread := Reread(w, eg, s.workspaces[w].generation + 1);
    GotoOverrides(Revived(s, w), pid, CreateRevive(w, eg), reread);
    var s3 := Goto(Revived(s, w), pid, reread);
    assert Goto(Revived(s2, w), pid, reread) == s3;
    ReachesAfter(s, s2, Go(pid), s3);
  }

  lemma ReviveReaches(s: State, w: WorkspaceId, pid: Pid)
    requires Recreatable(s, w, pid)
    ensures var row := s.workspaces[w];
            Reaches(s, Goto(Revived(s, w), pid,
                            Schedule(w, row.enrollment, row.generation + 1, s.enrollments[row.enrollment].generation)))
  {
    hide Reaches, Step, Strict;
    var row := s.workspaces[w];
    var eg := s.enrollments[row.enrollment].generation;
    ReviveReachesReread(s, w, pid);
    var u := Revived(s, w);
    var reread := Reread(w, eg, row.generation + 1);
    RereadToSchedule(u, w, pid, eg, row.generation + 1);
    var last := Schedule(w, row.enrollment, row.generation + 1, eg);
    GotoOverrides(u, pid, reread, last);
    ReachesAfter(s, Goto(u, pid, reread), Go(pid), Goto(u, pid, last));
  }

  // ----- one uninterrupted provision that succeeds -----

  /** The tables after `w` has been given the VM of its current generation. */
  function Provisioned(s: State, w: WorkspaceId, eg: nat): State
    requires w in s.workspaces
  {
    var l := LabId(w, s.workspaces[w].generation);
    var row := s.workspaces[w].(status := Running, startedAt := None, labId := Some(l));
    s.(workspaces := s.workspaces[w := row],
       posts := s.posts[l := Made], live := s.live + {l}, reservedFor := s.reservedFor[l := eg])
  }

  predicate Schedulable(s: State, w: WorkspaceId, eg: nat) {
    && HasStatus(s, w, Creating)
    && Current(s, s.workspaces[w].enrollment, eg)
    && LabId(w, s.workspaces[w].generation) !in s.reservedFor
    && LabId(w, s.workspaces[w].generation) !in s.provisions
  }

  lemma ScheduleToPosting(s: State, w: WorkspaceId, pid: Pid, eg: nat)
    requires Schedulable(s, w, eg)
    ensures var row := s.workspaces[w]; var l := LabId(w, row.generation);
            var s1 := Goto(s, pid, Schedule(w, row.enrollment, row.generation, eg));
            Strict(s1, Go(pid)) && Step(s1, Go(pid)) == Goto(Reserved(s1, l, eg), pid, Posting(l))
  {
  }

  lemma PostIsMade(s: State, l: LabId)
    requires l in s.posts && s.posts[l] == Open
    ensures Strict(s, LabsMakes(l))
    ensures Step(s, LabsMakes(l)) == s.(posts := s.posts[l := Made], live := s.live + {l})
  {
  }

  lemma PostingToSettle(s: State, l: LabId, pid: Pid)
    requires l in s.posts && s.posts[l] == Made
    ensures var s1 := Goto(s, pid, Posting(l));
            Strict(s1, Go(pid)) && Step(s1, Go(pid)) == Goto(s1, pid, Settle(l))
  {
  }

  lemma SettleToAttach(s: State, l: LabId, pid: Pid)
    requires l in s.provisions
    ensures var s1 := Goto(s, pid, Settle(l));
            Strict(s1, Go(pid)) &&
            Step(s1, Go(pid)) ==
              Goto(s1.(provisions := s.provisions[l := s.provisions[l].(settled := true)]), pid, Attach(l))
  {
  }

  lemma AttachAttaches(s: State, l: LabId, pid: Pid)
    requires l in s.provisions && !s.provisions[l].claimed && Awaits(s, l.workspace, l.generation)
    ensures var s1 := Goto(s, pid, Attach(l)); var w := l.workspace;
            var row := s.workspaces[w].(status := Running, startedAt := None, labId := Some(l));
            Strict(s1, Go(pid)) &&
            Step(s1, Go(pid)) ==
              Exit(s1.(provisions := s.provisions - {l}, workspaces := s.workspaces[w := row]), pid)
  {
  }

  /** The tables while the task of `w` is between its two last statements. */
  function Attachable(s: State, w: WorkspaceId, eg: nat): State
    requires w in s.workspaces
  {
    var l := LabId(w, s.workspaces[w].generation);
    s.(provisions := s.provisions[l := Provision(false, true, s.now + CREATE_VM_SETTLE_MS)],
       posts := s.posts[l := Made], live := s.live + {l}, reservedFor := s.reservedFor[l := eg])
  }

  /** The tables once Labs has created the VM for the POST of `w`. */
  function Posted(s: State, w: WorkspaceId, eg: nat): State
    requires w in s.workspaces
  {
    var l := LabId(w, s.workspaces[w].generation);
    var u := Reserved(s, l, eg);
    u.(posts := u.posts[l := Made], live := u.live + {l})
  }

  lemma ProvisionReachesSettle(s: State, w: WorkspaceId, pid: Pid, eg: nat)
    requires Schedulable(s, w, eg)
    ensures var row := s.workspaces[w]; var l := LabId(w, row.generation);
            Reaches(Goto(s, pid, Schedule(w, row.enrollment, row.generation, eg)),
                    Goto(Posted(s, w, eg), pid, Settle(l)))
  {
    hide Reaches, Step, Strict;
    var row := s.workspaces[w];
    var l := LabId(w, row.generation);
    var s0 := Goto(s, pid, Schedule(w, row.enrollment, row.generation, eg));
    var u := Reserved(s, l, eg);
    ScheduleToPosting(s, w, pid, eg);
    GotoOverrides(u, pid, s0.procs[pid], Posting(l));
    assert Reserved(s0, l, eg) == Goto(u, pid, s0.procs[pid]);
    var s1 := Goto(u, pid, Posting(l));
    ReachesStep(s0, Go(pid), s1);
    PostIsMade(s1, l);
    var v := Posted(s, w, eg);
    var s2 := Goto(v, pid, Posting(l));
    ReachesAfter(s0, s1, LabsMakes(l), s2);
    PostingToSettle(v, l, pid);
    GotoOverrides(v, pid, Posting(l), Settle(l));
    ReachesAfter(s0, s2, Go(pid), Goto(v, pid, Settle(l)));
  }

  lemma ProvisionReachesAttach(s: State, w: WorkspaceId, pid: Pid, eg: nat)
    requires Schedulable(s, w, eg)
    ensures var row := s.workspaces[w]; var l := LabId(w, row.generation);
            Reaches(Goto(s, pid, Schedule(w, row.enrollment, row.generation, eg)),
                    Goto(Attachable(s, w, eg), pid, Attach(l)))
  {
    hide Reaches, Step, Strict;
    var row := s.workspaces[w];
    var l := LabId(w, row.generation);
    var s0 := Goto(s, pid, Schedule(w, row.enrollment, row.generation, eg));
    ProvisionReachesSettle(s, w, pid, eg);
    var v := Posted(s, w, eg);
    SettleToAttach(v, l, pid);
    var x := Attachable(s, w, eg);
    assert x == v.(provisions := v.provisions[l := v.provisions[l].(settled := true)]);
    GotoOverrides(x, pid, Settle(l), Attach(l));
    var s3 := Goto(v, pid, Settle(l));
    assert s3.(provisions := x.provisions) == Goto(x, pid, Settle(l));
    ReachesAfter(s0, s3, Go(pid), Goto(x, pid, Attach(l)));
  }

  lemma ProvisionReaches(s: State, w: WorkspaceId, pid: Pid, eg: nat)
    requires Schedulable(s, w, eg) && pid !in s.procs
    ensures var row := s.workspaces[w];
            Reaches(Goto(s, pid, Schedule(w, row.enrollment, row.generation, eg)), Provisioned(s, w, eg))
  {
    hide Reaches, Step, Strict;
    var row := s.workspaces[w];
    var l := LabId(w, row.generation);
    ProvisionReachesAttach(s, w, pid, eg);
    var x := Attachable(s, w, eg);
    AttachAttaches(x, l, pid);
    var t := Provisioned(s, w, eg);
    assert x.provisions - {l} == s.provisions;
    GotoOverrides(t, pid, Attach(l), Attach(l));
    assert Goto(x, pid, Attach(l)).(provisions := s.provisions, workspaces := t.workspaces) == Goto(t, pid, Attach(l));
    ReachesAfter(Goto(s, pid, Schedule(w, row.enrollment, row.generation, eg)), Goto(x, pid, Attach(l)), Go(pid), t);
  }

  // ----- expiring and stopping -----

  function Expired(s: State, w: WorkspaceId): State
    requires w in s.workspaces
  {
    SetStatus(s, w, Error).(now := s.now + STALE_CREATING_MS + 1)
  }

  /** A CREATING row can time out into an ERROR row. */
  lemma CreatingRowCanExpire(s: State, w: WorkspaceId)
    requires HasStatus(s, w, Creating) && s.workspaces[w].startedAt == Some(s.now)
    ensures Reaches(s, Expired(s, w))
  {
    hide Reaches, Strict, Step, Land;
    var pid := Fresh(s.procs);
    var s1 := s.(now := s.now + STALE_CREATING_MS + 1);
    TickSteps(s, STALE_CREATING_MS + 1);
    ReachesStep(s, Tick(STALE_CREATING_MS + 1), s1);
    var g := s.workspaces[w].generation;
    var s2 := Goto(s1, pid, Expire(w, g));
    PollSteps(s1, pid, w);
    ReachesAfter(s, s1, Begin(pid, PollRequest(w)), s2);
    ExpireSteps(s1, w, pid);
    var s3 := SetStatus(s1, w, Error);
    GotoOverrides(s3, pid, Expire(w, g), Expire(w, g));
    ReachesAfter(s, s2, Go(pid), s3);
  }

  lemma TickSteps(s: State, ms: nat)
    ensures Strict(s, Tick(ms)) && Step(s, Tick(ms)) == s.(now := s.now + ms)
  {
  }

  lemma PollSteps(s: State, pid: Pid, w: WorkspaceId)
    requires HasStatus(s, w, Creating) && pid !in s.procs && s.workspaces[w].startedAt.Some?
    requires s.now > s.workspaces[w].startedAt.value + STALE_CREATING_MS
    ensures var a := Begin(pid, PollRequest(w));
            Strict(s, a) && Step(s, a) == Goto(s, pid, Expire(w, s.workspaces[w].generation))
  {
  }

  lemma BeginIsStrict(s: State, pid: Pid, r: Request)
    ensures Strict(s, Begin(pid, r))
  {
  }

  lemma ExpireSteps(s: State, w: WorkspaceId, pid: Pid)
    requires HasStatus(s, w, Creating)
    ensures var s1 := Goto(s, pid, Expire(w, s.workspaces[w].generation));
            Strict(s1, Go(pid)) && Step(s1, Go(pid)) == Exit(Goto(SetStatus(s, w, Error), pid, s1.procs[pid]), pid)
  {
  }

  lemma BeginToStopVm(s: State, w: WorkspaceId, l: LabId, pid: Pid)
    requires Holds(s, w, l) && HasStatus(s, w, Running) && pid !in s.procs
    ensures var a := Begin(pid, StopRequest(w));
            Strict(s, a) && Step(s, a) == Goto(s, pid, StopVm(w, l))
  {
  }

  lemma StopVmToMissing(s: State, w: WorkspaceId, l: LabId, pid: Pid)
    requires l !in s.live
    ensures var s1 := Goto(s, pid, StopVm(w, l)); var fail := Advance(pid, false, None);
            Strict(s1, fail) && Step(s1, fail) == Goto(s1, pid, MarkMissing(w, l))
  {
  }

  lemma MissingToError(s: State, w: WorkspaceId, l: LabId, pid: Pid)
    requires Holds(s, w, l) && HasStatus(s, w, Running) && l !in s.live
    ensures var s2 := Goto(s, pid, MarkMissing(w, l));
            Strict(s2, Go(pid)) && Step(s2, Go(pid)) == Exit(Goto(SetStatus(s, w, Error), pid, s2.procs[pid]), pid)
  {
  }

  lemma StopReaches(s: State, w: WorkspaceId, l: LabId)
    requires Holds(s, w, l) && HasStatus(s, w, Running) && l !in s.live
    ensures Reaches(s, SetStatus(s, w, Error))
  {
    hide Reaches, Step, Strict;
    var pid := Fresh(s.procs);
    BeginToStopVm(s, w, l, pid);
    var s1 := Goto(s, pid, StopVm(w, l));
    ReachesStep(s, Begin(pid, StopRequest(w)), s1);
    StopVmToMissing(s, w, l, pid);
    GotoOverrides(s, pid, StopVm(w, l), MarkMissing(w, l));
    var s2 := Goto(s, pid, MarkMissing(w, l));
    ReachesAfter(s, s1, Advance(pid, false, None), s2);
    MissingToError(s, w, l, pid);
    GotoOverrides(SetStatus(s, w, Error), pid, MarkMissing(w, l), MarkMissing(w, l));
    ReachesAfter(s, s2, Go(pid), SetStatus(s, w, Error));
  }

  lemma EnrollSteps(s: State, e: EnrollmentId)
    requires e in s.enrollments
    ensures Strict(s, Enroll(e))
    ensures Step(s, Enroll(e)) ==
            s.(enrollments := s.enrollments[e := Enrollment(s.enrollments[e].generation, true)])
  {
  }

  ghost function Fresh(procs: map<Pid, Proc>): (pid: Pid)
    ensures pid !in procs
  {
    FreshExists(procs.Keys);
    var pid: Pid :| pid !in procs;
    pid
  }

  lemma FreshExists(used: set<Pid>)
    ensures exists pid: Pid :: pid !in used
  {
    var bound := Bound(used);
    assert bound !in used;
  }

  ghost function Bound(used: set<Pid>): (b: nat)
    ensures forall p <- used :: p < b
  {
    if used == {} then 0
    else
      var p :| p in used;
      var b := Bound(used - {p});
      assert forall q <- used :: q == p || q in used - {p};
      if p < b then b else p + 1
  }
}
