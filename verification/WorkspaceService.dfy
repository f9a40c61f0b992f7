/** The service code itself: each method reads and updates the tables statement by
    statement, and other processes run at every `await` (`Others`).  Each statement is
    one step of the state machine, so a whole call is a run of it; what is proved of runs
    therefore holds of these methods. */
module WorkspaceService {
  import opened Options
  import opened Workspace
  import opened WorkspaceRuns
  import opened WorkspaceSafety
  import opened WorkspacePaths
  import opened WorkspaceResets

  /** Code running elsewhere never executes the statements of `pid`. */
  predicate Foreign(env: seq<Action>, pid: Pid) {
    forall a <- env ::
      match a
      case Begin(p, _) => p != pid
      case Advance(p, _, _) => p != pid
      case Crash(p) => p != pid
      case _ => true
  }

  lemma {:induction false} ForeignKeepsProc(s: State, env: seq<Action>, pid: Pid)
    requires Foreign(env, pid) && pid in s.procs
    ensures pid in Run(s, env).procs && Run(s, env).procs[pid] == s.procs[pid]
    decreases |env|
  {
    hide Step;
    if env != [] {
      assert env[0] in env;
      ForeignStepKeepsProc(s, env[0], pid);
      assert forall a <- env[1..] :: a in env;
      ForeignKeepsProc(Step(s, env[0]), env[1..], pid);
    }
  }

  lemma ForeignStepKeepsProc(s: State, a: Action, pid: Pid)
    requires Foreign([a], pid) && pid in s.procs
    ensures pid in Step(s, a).procs && Step(s, a).procs[pid] == s.procs[pid]
  {
    hide MoveOf, FirstMove, RestartTx;
    assert a in [a];
    if a.Advance? && a.pid in s.procs {
      ApplyKeepsProcs(s, MoveOf(s, s.procs[a.pid], a.ok, a.w).write);
    } else if a.Restart? {
      RestartSparesLabs(s, a.e, a.w);
    }
  }

  /** What runs during each of the four awaits of `cleanupProvision`. */
  datatype Awaits4 = Awaits4(afterClaim: seq<Action>, afterRead: seq<Action>,
                             afterDelete: seq<Action>, afterConfirm: seq<Action>)

  function CleanupTrace(pid: Pid, env: Awaits4, applied: bool, answered: bool): seq<Action> {
    [Go(pid)] + (env.afterClaim + ([Go(pid)] + (env.afterRead + ([Advance(pid, applied, None)] +
      (env.afterDelete + ([Advance(pid, answered, None)] + (env.afterConfirm + [Go(pid)])))))))
  }

  /** What runs while `provisionInBackground` awaits Labs and its three statements. */
  datatype Awaits3 = Awaits3(duringPost: seq<Action>, afterPost: seq<Action>,
                             afterSettle: seq<Action>, afterAttach: seq<Action>)

  function ProvisionTrace(pid: Pid, env: Awaits3): seq<Action> {
    env.duringPost + ([Go(pid)] + (env.afterPost + ([Go(pid)] + (env.afterSettle + [Go(pid)]))))
  }

  class WorkspaceService {
    var enrollments: map<EnrollmentId, Enrollment>
    var workspaces: map<WorkspaceId, WorkspaceRow>
    var provisions: map<LabId, Provision>
    var posts: map<LabId, Post>
    var live: set<LabId>
    var procs: map<Pid, Proc>
    var now: nat
    var usedIds: set<WorkspaceId>
    var reservedFor: map<LabId, nat>

    function State(): State
      reads this
    {
      Workspace.State(enrollments, workspaces, provisions, posts, live, procs, now, usedIds, reservedFor)
    }

    constructor ()
      ensures State() == INITIAL
    {
      enrollments, workspaces, provisions, posts := map[], map[], map[], map[];
      live, procs, now, usedIds, reservedFor := {}, map[], 0, {}, map[];
    }

    /** An await: everything else runs. */
    method Others(env: seq<Action>)
      modifies this
      ensures State() == Run(old(State()), env)
    {
      var t := Run(State(), env);
      enrollments, workspaces, provisions, posts := t.enrollments, t.workspaces, t.provisions, t.posts;
      live, procs, now, usedIds, reservedFor := t.live, t.procs, t.now, t.usedIds, t.reservedFor;
    }

    // ----- cleanupProvision, statement by statement -----

    /** Claim the row: PENDING, or CLEANUP whose retry time has come. */
    method ClaimRow(pid: Pid, l: LabId) returns (count: nat)
      requires pid in procs && procs[pid] == Claim(l)
      modifies this`provisions, this`procs
      ensures State() == Step(old(State()), Go(pid))
      ensures forall k <- old(provisions) :: k in provisions && (k != l ==> provisions[k] == old(provisions)[k])
      ensures provisions.Keys == old(provisions).Keys
      ensures procs == if count == 1 then old(procs)[pid := ReadProvision(l)] else old(procs) - {pid}
      ensures count == 0 ==> provisions == old(provisions)
      ensures count == 1 ==> l in provisions && provisions[l].claimed && provisions[l].cleanupAt == now + RESET_RETRY_MS
      ensures workspaces == old(workspaces) && live == old(live) && now == old(now)
      ensures count == if l in old(provisions) && (!old(provisions)[l].claimed || old(provisions)[l].cleanupAt <= old(now))
                       then 1 else 0
      ensures count == 1 ==> pid in procs && procs[pid] == ReadProvision(l)
    {
      count := 0;
      if l in provisions && (!provisions[l].claimed || provisions[l].cleanupAt <= now) {
        provisions := provisions[l := provisions[l].(claimed := true, cleanupAt := now + RESET_RETRY_MS)];
        count := 1;
        procs := procs[pid := ReadProvision(l)];
      } else {
        procs := procs - {pid};
      }
    }

    method ReadCreateSettled(pid: Pid, l: LabId) returns (sawSettled: bool)
      requires pid in procs && procs[pid] == ReadProvision(l)
      modifies this`procs
      ensures State() == Step(old(State()), Go(pid))
      ensures pid in procs && procs == old(procs)[pid := procs[pid]]
      ensures sawSettled <==> l in provisions && provisions[l].settled
      ensures pid in procs && procs[pid] == DeleteVm(l, sawSettled)
    {
      sawSettled := l in provisions && provisions[l].settled;
      procs := procs[pid := DeleteVm(l, sawSettled)];
    }

    method SendDelete(pid: Pid, l: LabId, sawSettled: bool, applied: bool)
      requires pid in procs && procs[pid] == DeleteVm(l, sawSettled)
      modifies this`live, this`procs
      ensures State() == Step(old(State()), Advance(pid, applied, None))
      ensures pid in procs && procs == old(procs)[pid := procs[pid]]
      ensures pid in procs && procs[pid] == ConfirmVm(l, sawSettled)
      ensures applied ==> l !in live
    {
      if applied {
        live := live - {l};
      }
      procs := procs[pid := ConfirmVm(l, sawSettled)];
    }

    method ObserveMissing(pid: Pid, l: LabId, sawSettled: bool, answered: bool) returns (missing: bool)
      requires pid in procs && procs[pid] == ConfirmVm(l, sawSettled)
      modifies this`procs
      ensures State() == Step(old(State()), Advance(pid, answered, None))
      ensures pid in procs && procs == old(procs)[pid := procs[pid]]
      ensures missing <==> answered && l !in live
      ensures pid in procs && procs[pid] == if missing then DropProvision(l, sawSettled) else CleanupFailed(l)
    {
      missing := answered && l !in live;
      procs := procs[pid := if missing then DropProvision(l, sawSettled) else CleanupFailed(l)];
    }

    /** Delete the row if the POST had settled, otherwise keep the tombstone for an hour. */
    method DropOrKeepRow(pid: Pid, l: LabId, sawSettled: bool)
      requires pid in procs && procs[pid] == DropProvision(l, sawSettled)
      modifies this`provisions, this`procs
      ensures State() == Step(old(State()), Go(pid))
      ensures forall k <- provisions :: k in old(provisions) && (k != l ==> provisions[k] == old(provisions)[k])
      ensures forall k <- old(provisions) :: k != l ==> k in provisions
      ensures l in provisions && provisions[l] != old(provisions)[l] ==> provisions[l].cleanupAt > now
      ensures procs == old(procs) - {pid}
    {
      if l in provisions && provisions[l].claimed {
        if sawSettled {
          provisions := provisions - {l};
        } else {
          provisions := provisions[l := provisions[l].(cleanupAt := now + UNKNOWN_CREATE_RECHECK_MS)];
        }
      }
      procs := procs - {pid};
    }

    method RetryRowLater(pid: Pid, l: LabId)
      requires pid in procs && procs[pid] == CleanupFailed(l)
      modifies this`provisions, this`procs
      ensures State() == Step(old(State()), Go(pid))
      ensures forall k <- provisions :: k in old(provisions) && (k != l ==> provisions[k] == old(provisions)[k])
      ensures forall k <- old(provisions) :: k != l ==> k in provisions
      ensures l in provisions && provisions[l] != old(provisions)[l] ==> provisions[l].cleanupAt > now
      ensures procs == old(procs) - {pid}
    {
      if l in provisions && provisions[l].claimed {
        provisions := provisions[l := provisions[l].(cleanupAt := now + RESET_RETRY_MS)];
      }
      procs := procs - {pid};
    }

    /** `cleanupProvision` with other code at every await.  `failed` is the thrown error. */
    method CleanupProvision(pid: Pid, l: LabId, env: Awaits4, applied: bool, answered: bool)
      returns (failed: bool, trace: seq<Action>)
      requires pid in procs && procs[pid] == Claim(l)
      requires Foreign(env.afterClaim, pid) && Foreign(env.afterRead, pid)
      requires Foreign(env.afterDelete, pid) && Foreign(env.afterConfirm, pid)
      modifies this
      ensures State() == Run(old(State()), trace)
      ensures trace == [Go(pid)] || trace == CleanupTrace(pid, env, applied, answered)
      ensures trace == [Go(pid)] ==> !failed && provisions == old(provisions) && live == old(live)
    {
      hide Step, Foreign;
      var rest7 := env.afterConfirm + [Go(pid)];
      var rest6 := [Advance(pid, answered, None)] + rest7;
      var rest5 := env.afterDelete + rest6;
      var rest4 := [Advance(pid, applied, None)] + rest5;
      var rest3 := env.afterRead + rest4;
      var rest2 := [Go(pid)] + rest3;
      var rest1 := env.afterClaim + rest2;
      ghost var start := State();
      OneStep(start, Go(pid), rest1);
      var count := ClaimRow(pid, l);
      if count == 0 {
        trace := [Go(pid)];
        assert [Go(pid)] == [Go(pid)] + [];
        OneStep(start, Go(pid), []);
        ClaimMissesQuietly(start, pid, l);
        return false, trace;
      }
      trace := CleanupTrace(pid, env, applied, answered);
      Awaited(State(), env.afterClaim, rest2, pid);
      Others(env.afterClaim);
      OneStep(State(), Go(pid), rest3);
      var sawSettled := ReadCreateSettled(pid, l);
      Awaited(State(), env.afterRead, rest4, pid);
      Others(env.afterRead);
      OneStep(State(), Advance(pid, applied, None), rest5);
      SendDelete(pid, l, sawSettled, applied);
      Awaited(State(), env.afterDelete, rest6, pid);
      Others(env.afterDelete);
      OneStep(State(), Advance(pid, answered, None), rest7);
      var missing := ObserveMissing(pid, l, sawSettled, answered);
      Awaited(State(), env.afterConfirm, [Go(pid)], pid);
      Others(env.afterConfirm);
      assert [Go(pid)] == [Go(pid)] + [];
      OneStep(State(), Go(pid), []);
      if missing {
        DropOrKeepRow(pid, l, sawSettled);
      } else {
        RetryRowLater(pid, l);
      }
      failed := !missing;
    }

    // ----- provisionInBackground, statement by statement -----

    /** The POST failed or timed out: ERROR, if the row still awaits this attempt. */
    method FailAttempt(pid: Pid, l: LabId)
      requires pid in procs && procs[pid] == Posting(l)
      modifies this`workspaces, this`procs
      ensures State() == Step(old(State()), Advance(pid, false, None))
    {
      var w := l.workspace;
      if w in workspaces && workspaces[w].status == Creating && workspaces[w].generation == l.generation {
        workspaces := workspaces[w := workspaces[w].(status := Error)];
      }
      procs := procs - {pid};
    }

    method AnswerPost(pid: Pid, l: LabId)
      requires pid in procs && procs[pid] == Posting(l) && l in posts && posts[l] == Made
      modifies this`procs
      ensures State() == Step(old(State()), Go(pid))
      ensures pid in procs && procs[pid] == Settle(l)
    {
      procs := procs[pid := Settle(l)];
    }

    method SettleRow(pid: Pid, l: LabId)
      requires pid in procs && procs[pid] == Settle(l)
      modifies this`provisions, this`procs
      ensures State() == Step(old(State()), Go(pid))
      ensures pid in procs && procs[pid] == Attach(l)
    {
      if l in provisions {
        provisions := provisions[l := provisions[l].(settled := true)];
      }
      procs := procs[pid := Attach(l)];
    }

    /** The attach transaction: claim the row, then attach the VM, or roll both back. */
    method AttachVm(pid: Pid, l: LabId) returns (attached: bool)
      requires pid in procs && procs[pid] == Attach(l)
      modifies this`workspaces, this`provisions, this`procs
      ensures State() == Step(old(State()), Go(pid))
      ensures attached ==> Holds(State(), l.workspace, l) && HasStatus(State(), l.workspace, Running)
      ensures !attached ==> pid in procs && procs[pid] == Claim(l)
      ensures !attached ==> workspaces == old(workspaces) && provisions == old(provisions)
    {
      var w := l.workspace;
      attached := false;
      if l in provisions && !provisions[l].claimed {
        var rolledBack := provisions;
        provisions := provisions - {l};
        if w in workspaces && workspaces[w].status == Creating && workspaces[w].generation == l.generation {
          workspaces := workspaces[w := workspaces[w].(status := Running, startedAt := None, labId := Some(l))];
          attached := true;
        } else {
          provisions := rolledBack;
        }
      }
      procs := if attached then procs - {pid} else procs[pid := Claim(l)];
    }

    /** `provisionInBackground` up to its clean-up branch.  `posted` is the answer of
        Labs; when it is false the POST may still be open.  The result says whether the
        caller still has to clean the VM up. */
    method ProvisionInBackground(pid: Pid, l: LabId, env: Awaits3, posted: bool)
      returns (mustCleanUp: bool, trace: seq<Action>)
      requires pid in procs && procs[pid] == Posting(l)
      requires Foreign(env.duringPost, pid) && Foreign(env.afterPost, pid) && Foreign(env.afterSettle, pid)
      requires posted ==> var s := Run(State(), env.duringPost); l in s.posts && s.posts[l] == Made
      modifies this
      ensures State() == Run(old(State()), trace)
      ensures posted ==> trace == ProvisionTrace(pid, env)
      ensures !posted ==> trace == env.duringPost + [Advance(pid, false, None)]
      ensures mustCleanUp ==> pid in procs && procs[pid] == Claim(l)
      ensures posted && !mustCleanUp ==> Holds(State(), l.workspace, l) && HasStatus(State(), l.workspace, Running)
    {
      hide Step, Foreign, Holds, HasStatus;
      var rest4 := env.afterSettle + [Go(pid)];
      var rest3 := [Go(pid)] + rest4;
      var rest2 := env.afterPost + rest3;
      var rest1 := [Go(pid)] + rest2;
      ghost var start := State();
      Awaited(start, env.duringPost, rest1, pid);
      Others(env.duringPost);
      if !posted {
        trace := env.duringPost + [Advance(pid, false, None)];
        FailedPostIsOneMore(start, env.duringPost, pid, l);
        FailAttempt(pid, l);
        return false, trace;
      }
      trace := ProvisionTrace(pid, env);
      OneStep(State(), Go(pid), rest2);
      AnswerPost(pid, l);
      Awaited(State(), env.afterPost, rest3, pid);
      Others(env.afterPost);
      mustCleanUp := SettleAndAttach(pid, l, env.afterSettle);
    }

    /** What follows a successful POST. */
    method SettleAndAttach(pid: Pid, l: LabId, env: seq<Action>) returns (mustCleanUp: bool)
      requires pid in procs && procs[pid] == Settle(l) && Foreign(env, pid)
      modifies this
      ensures State() == Run(old(State()), [Go(pid)] + (env + [Go(pid)]))
      ensures mustCleanUp ==> pid in procs && procs[pid] == Claim(l)
      ensures !mustCleanUp ==> Holds(State(), l.workspace, l) && HasStatus(State(), l.workspace, Running)
    {
      hide Step, Foreign, Holds, HasStatus;
      OneStep(State(), Go(pid), env + [Go(pid)]);
      SettleRow(pid, l);
      Awaited(State(), env, [Go(pid)], pid);
      Others(env);
      assert [Go(pid)] == [Go(pid)] + [];
      OneStep(State(), Go(pid), []);
      var attached := AttachVm(pid, l);
      mustCleanUp := !attached;
    }

    // ----- finishReset, statement by statement -----

    /** What `finishReset` decides after reading the row. */
    method ReadForReset(pid: Pid, w: WorkspaceId) returns (plan: Option<Proc>)
      requires pid in procs && procs[pid] == ResetRead(w)
      modifies this`procs
      ensures State() == Step(old(State()), Go(pid))
      ensures plan.None? <==> !HasStatus(State(), w, Resetting)
      ensures plan.None? ==> procs == old(procs) - {pid}
      ensures plan.Some? ==> procs == old(procs)[pid := plan.value]
      ensures plan.Some? ==> plan.value.ResetDefer? || plan.value.ResetDelete?
      ensures plan.Some? ==> plan.value.w == w
      ensures plan.Some? && plan.value.ResetDefer? ==> now < plan.value.started + CREATE_VM_SETTLE_MS
    {
      if w !in workspaces || workspaces[w].status != Resetting {
        procs := procs - {pid};
        return None;
      }
      var row := workspaces[w];
      if row.startedAt.Some? && now < row.startedAt.value + CREATE_VM_SETTLE_MS {
        plan := Some(ResetDefer(w, row.startedAt.value));
      } else {
        plan := Some(ResetDelete(w, ResetTarget(w, row)));
      }
      procs := procs[pid := plan.value];
    }

    method DeferReset(pid: Pid, w: WorkspaceId, started: nat)
      requires pid in procs && procs[pid] == ResetDefer(w, started)
      modifies this`workspaces, this`procs
      ensures State() == Step(old(State()), Go(pid))
      ensures forall v <- workspaces :: v in old(workspaces) && (v != w ==> workspaces[v] == old(workspaces)[v])
      ensures forall v <- old(workspaces) :: v != w ==> v in workspaces
      ensures HasStatus(old(State()), w, Resetting) ==> HasStatus(State(), w, Resetting) && workspaces[w].retryAt == Some(started + CREATE_VM_SETTLE_MS)
      ensures procs == old(procs) - {pid}
    {
      if w in workspaces && workspaces[w].status == Resetting {
        workspaces := workspaces[w := workspaces[w].(retryAt := Some(started + CREATE_VM_SETTLE_MS))];
      }
      procs := procs - {pid};
    }

    method DeleteForReset(pid: Pid, w: WorkspaceId, l: LabId, applied: bool)
      requires pid in procs && procs[pid] == ResetDelete(w, l)
      modifies this`live, this`procs
      ensures State() == Step(old(State()), Advance(pid, applied, None))
      ensures pid in procs && procs == old(procs)[pid := procs[pid]]
      ensures pid in procs && procs[pid] == ResetConfirm(w, l)
      ensures applied ==> l !in live
    {
      if applied {
        live := live - {l};
      }
      procs := procs[pid := ResetConfirm(w, l)];
    }

    method ConfirmReset(pid: Pid, w: WorkspaceId, l: LabId, answered: bool) returns (missing: bool)
      requires pid in procs && procs[pid] == ResetConfirm(w, l)
      modifies this`procs
      ensures State() == Step(old(State()), Advance(pid, answered, None))
      ensures pid in procs && procs == old(procs)[pid := procs[pid]]
      ensures missing <==> answered && l !in live
      ensures pid in procs && procs[pid] == if missing then ResetDrop(w) else ResetFailed(w)
    {
      missing := answered && l !in live;
      procs := procs[pid := if missing then ResetDrop(w) else ResetFailed(w)];
    }

    method DropWorkspace(pid: Pid, w: WorkspaceId)
      requires pid in procs && procs[pid] == ResetDrop(w)
      modifies this`workspaces, this`procs
      ensures State() == Step(old(State()), Go(pid))
      ensures forall v <- workspaces :: v in old(workspaces) && (v != w ==> workspaces[v] == old(workspaces)[v])
      ensures forall v <- old(workspaces) :: v != w ==> v in workspaces
      ensures HasStatus(old(State()), w, Resetting) ==> w !in workspaces
      ensures procs == old(procs) - {pid}
    {
      if w in workspaces && workspaces[w].status == Resetting {
        workspaces := workspaces - {w};
      }
      procs := procs - {pid};
    }

    method RetryResetLater(pid: Pid, w: WorkspaceId)
      requires pid in procs && procs[pid] == ResetFailed(w)
      modifies this`workspaces, this`procs
      ensures State() == Step(old(State()), Go(pid))
      ensures forall v <- workspaces :: v in old(workspaces) && (v != w ==> workspaces[v] == old(workspaces)[v])
      ensures forall v <- old(workspaces) :: v != w ==> v in workspaces
      ensures HasStatus(old(State()), w, Resetting) ==> HasStatus(State(), w, Resetting) && workspaces[w].retryAt == Some(now + RESET_RETRY_MS)
      ensures procs == old(procs) - {pid}
    {
      if w in workspaces && workspaces[w].status == Resetting {
        workspaces := workspaces[w := workspaces[w].(retryAt := Some(now + RESET_RETRY_MS))];
      }
      procs := procs - {pid};
    }

    // ----- sweepResets -----

    /** Rows the sweeper's first query returns. */
    function DueResets(): set<WorkspaceId>
      reads this
    {
      ResetsDue(workspaces, now)
    }

    /** Rows its second query returns. */
    function DueProvisions(): set<LabId>
      reads this
    {
      ProvisionsDue(provisions, now)
    }

    /** The rows other than `w` are those of `before`, and `w` is no longer due. */
    predicate Attempted(before: map<WorkspaceId, WorkspaceRow>, w: WorkspaceId)
      reads this
    {
      && (forall v <- workspaces :: v in before && (v != w ==> workspaces[v] == before[v]))
      && (forall v <- before :: v != w ==> v in workspaces)
      && (w in workspaces && workspaces[w].status == Resetting ==>
            workspaces[w].retryAt.Some? && workspaces[w].retryAt.value > now)
    }

    /** Delete the VM, then the row, or put the row off. */
    method DeleteAndDrop(pid: Pid, w: WorkspaceId, l: LabId, works: bool) returns (failed: bool)
      requires Inv(State()) && pid in procs && procs[pid] == ResetDelete(w, l) && HasStatus(State(), w, Resetting)
      modifies this`workspaces, this`live, this`procs
      ensures Inv(State()) && procs == old(procs) - {pid}
      ensures Attempted(old(workspaces), w) && (failed ==> !works)
    {
      hide Step, Inv;
      ResetCodeKeepsInv(State(), pid, works);
      DeleteForReset(pid, w, l, works);
      ResetCodeKeepsInv(State(), pid, works);
      var missing := ConfirmReset(pid, w, l, works);
      ResetCodeKeepsInv(State(), pid, true);
      if missing {
        DropWorkspace(pid, w);
      } else {
        RetryResetLater(pid, w);
      }
      failed := !missing;
    }

    /** `finishReset` with nothing else running; `works` is whether Labs deletes the VM. */
    method FinishReset(pid: Pid, w: WorkspaceId, works: bool) returns (failed: bool)
      requires Inv(State()) && pid !in procs
      modifies this`workspaces, this`live, this`procs
      ensures Inv(State()) && procs == old(procs)
      ensures Attempted(old(workspaces), w) && (failed ==> !works)
    {
      hide Step, Inv;
      BeginKeepsInv(State(), pid, ResetRead(w));
      procs := procs[pid := ResetRead(w)];
      ResetCodeKeepsInv(State(), pid, true);
      var plan := ReadForReset(pid, w);
      if plan.None? {
        failed := false;
      } else if plan.value.ResetDefer? {
        ResetCodeKeepsInv(State(), pid, true);
        DeferReset(pid, w, plan.value.started);
        failed := false;
      } else {
        failed := DeleteAndDrop(pid, w, plan.value.l, works);
      }
    }

    lemma AttemptedLeavesDue(before: map<WorkspaceId, WorkspaceRow>, due: set<WorkspaceId>, w: WorkspaceId)
      requires Attempted(before, w) && due == ResetsDue(before, now)
      ensures DueResets() == due - {w}
    {
    }

    /** The provision rows other than `l` are those of `before`, and `l` is no longer due. */
    predicate CleanedUp(before: map<LabId, Provision>, l: LabId)
      reads this
    {
      && (forall k <- provisions :: k in before && (k != l ==> provisions[k] == before[k]))
      && (forall k <- before :: k != l ==> k in provisions)
      && (l in provisions ==> provisions[l].cleanupAt > now)
    }

    /** Read the row, delete the VM and ask Labs whether it is gone. */
    method DeleteClaimed(pid: Pid, l: LabId, works: bool) returns (missing: bool, sawSettled: bool)
      requires Inv(State()) && pid in procs && procs[pid] == ReadProvision(l)
      modifies this`live, this`procs
      ensures Inv(State()) && pid in procs && procs == old(procs)[pid := procs[pid]]
      ensures procs[pid] == if missing then DropProvision(l, sawSettled) else CleanupFailed(l)
      ensures works ==> missing
    {
      hide Step, Inv;
      ResetCodeKeepsInv(State(), pid, true);
      sawSettled := ReadCreateSettled(pid, l);
      ResetCodeKeepsInv(State(), pid, works);
      SendDelete(pid, l, sawSettled, works);
      ResetCodeKeepsInv(State(), pid, works);
      missing := ObserveMissing(pid, l, sawSettled, works);
    }

    /** Everything `cleanupProvision` does after its claim. */
    method CleanUpClaimed(pid: Pid, l: LabId, works: bool) returns (failed: bool)
      requires Inv(State()) && pid in procs && procs[pid] == ReadProvision(l)
      requires l in provisions && provisions[l].cleanupAt > now
      modifies this`provisions, this`live, this`procs
      ensures Inv(State()) && procs == old(procs) - {pid}
      ensures CleanedUp(old(provisions), l) && (failed ==> !works)
    {
      hide Step, Inv;
      var missing, sawSettled := DeleteClaimed(pid, l, works);
      ResetCodeKeepsInv(State(), pid, true);
      if missing {
        DropOrKeepRow(pid, l, sawSettled);
      } else {
        RetryRowLater(pid, l);
      }
      failed := !missing;
    }

    /** `cleanupProvision` with nothing else running, called for a row that is due. */
    method CleanUpAlone(pid: Pid, l: LabId, works: bool) returns (failed: bool)
      requires Inv(State()) && pid !in procs && l in DueProvisions()
      modifies this`provisions, this`live, this`procs
      ensures Inv(State()) && procs == old(procs)
      ensures CleanedUp(old(provisions), l) && (failed ==> !works)
    {
      hide Step, Inv;
      BeginKeepsInv(State(), pid, Claim(l));
      procs := procs[pid := Claim(l)];
      ResetCodeKeepsInv(State(), pid, true);
      var count := ClaimRow(pid, l);
      if count == 0 {
        failed := false;
      } else {
        failed := CleanUpClaimed(pid, l, works);
      }
    }

    lemma CleanedUpLeavesDue(before: map<LabId, Provision>, due: set<LabId>, l: LabId)
      requires CleanedUp(before, l) && due == ProvisionsDue(before, now)
      ensures DueProvisions() == due - {l}
    {
    }

    method SweepResetRows(pid: Pid, works: set<WorkspaceId>) returns (failed: nat, batch: seq<WorkspaceId>)
      requires Inv(State()) && pid !in procs
      modifies this`workspaces, this`live, this`procs
      ensures Inv(State()) && procs == old(procs)
      ensures IsBatch(batch, old(DueResets())) && DueResets() == old(DueResets()) - Elements(batch)
      ensures failed <= |batch| && (Elements(batch) <= works ==> failed == 0)
    {
      hide Inv, Attempted, IsBatch, ResetsDue, Elements;
      failed := 0;
      NoneYet<WorkspaceId>();
      ghost var start := DueResets();
      batch := Batch(DueResets());
      assert batch[..0] == [];
      for i := 0 to |batch|
        invariant Inv(State()) && procs == old(procs)
        invariant DueResets() == start - Elements(batch[..i])
        invariant failed <= i && (Elements(batch[..i]) <= works ==> failed == 0)
      {
        ghost var before, due := workspaces, DueResets();
        var threw := FinishReset(pid, batch[i], batch[i] in works);
        AttemptedLeavesDue(before, due, batch[i]);
        OneMore(batch, i);
        if threw {
          failed := failed + 1;
        }
      }
      assert batch[..|batch|] == batch;
    }

    method SweepProvisionRows(pid: Pid, works: set<LabId>) returns (failed: nat, batch: seq<LabId>)
      requires Inv(State()) && pid !in procs
      modifies this`provisions, this`live, this`procs
      ensures Inv(State()) && procs == old(procs)
      ensures IsBatch(batch, old(DueProvisions())) && DueProvisions() == old(DueProvisions()) - Elements(batch)
      ensures failed <= |batch| && (Elements(batch) <= works ==> failed == 0)
    {
      hide Inv, CleanedUp, IsBatch, ProvisionsDue, Elements;
      failed := 0;
      NoneYet<LabId>();
      ghost var start := DueProvisions();
      batch := Batch(DueProvisions());
      assert batch[..0] == [];
      for i := 0 to |batch|
        invariant Inv(State()) && procs == old(procs)
        invariant DueProvisions() == start - Elements(batch[..i])
        invariant failed <= i && (Elements(batch[..i]) <= works ==> failed == 0)
      {
        ghost var before, due := provisions, DueProvisions();
        NextIsDue(batch, start, i);
        var threw := CleanUpAlone(pid, batch[i], batch[i] in works);
        CleanedUpLeavesDue(before, due, batch[i]);
        OneMore(batch, i);
        if threw {
          failed := failed + 1;
        }
      }
      assert batch[..|batch|] == batch;
    }

    /** One sweep at a fixed clock: the first ten due resets, then the first ten due
        clean-ups, each attempted once even when every delete at Labs fails. */
    method SweepResets(pid: Pid, resetWorks: set<WorkspaceId>, cleanupWorks: set<LabId>)
      returns (attempted: nat, failed: nat, resets: seq<WorkspaceId>, cleanups: seq<LabId>)
      requires Inv(State()) && pid !in procs
      modifies this`workspaces, this`provisions, this`live, this`procs
      ensures Inv(State()) && procs == old(procs)
      ensures IsBatch(resets, old(DueResets())) && DueResets() == old(DueResets()) - Elements(resets)
      ensures IsBatch(cleanups, old(DueProvisions())) && DueProvisions() == old(DueProvisions()) - Elements(cleanups)
      ensures attempted == |resets| + |cleanups| && failed <= attempted
      ensures Elements(resets) <= resetWorks && Elements(cleanups) <= cleanupWorks ==> failed == 0
    {
      hide Inv;
      var resetsFailed, cleanupsFailed;
      resetsFailed, resets := SweepResetRows(pid, resetWorks);
      cleanupsFailed, cleanups := SweepProvisionRows(pid, cleanupWorks);
      attempted, failed := |resets| + |cleanups|, resetsFailed + cleanupsFailed;
    }

    /** The cron job: one sweep after the other at a fixed clock; `works` holds which deletes
        Labs performs during each.  After enough sweeps every row that was due has been
        attempted, and nothing is due any more. */
    method SweepRepeatedly(pid: Pid, works: seq<(set<WorkspaceId>, set<LabId>)>)
      returns (resets: seq<seq<WorkspaceId>>, cleanups: seq<seq<LabId>>)
      requires Inv(State()) && pid !in procs
      modifies this`workspaces, this`provisions, this`live, this`procs
      ensures Inv(State()) && procs == old(procs)
      ensures |resets| == |cleanups| == |works|
      ensures 10 * |works| >= |old(DueResets())| ==>
                DueResets() == {} && forall w <- old(DueResets()) :: exists i | 0 <= i < |resets| :: w in resets[i]
      ensures 10 * |works| >= |old(DueProvisions())| ==>
                DueProvisions() == {} && forall l <- old(DueProvisions()) :: exists i | 0 <= i < |cleanups| :: l in cleanups[i]
    {
      hide Inv, IsBatch, Elements, ResetsDue, ProvisionsDue;
      resets, cleanups := [], [];
      ghost var dueResets, dueCleanups := [DueResets()], [DueProvisions()];
      for i := 0 to |works|
        invariant Inv(State()) && procs == old(procs)
        invariant |resets| == |cleanups| == i
        invariant Sweeps(dueResets, resets) && dueResets[0] == old(DueResets()) && dueResets[i] == DueResets()
        invariant Sweeps(dueCleanups, cleanups) && dueCleanups[0] == old(DueProvisions())
        invariant dueCleanups[i] == DueProvisions()
      {
        var attempted, failed, batch, claimed := SweepResets(pid, works[i].0, works[i].1);
        NextSweep(dueResets, resets, batch, DueResets());
        NextSweep(dueCleanups, cleanups, claimed, DueProvisions());
        resets, cleanups := resets + [batch], cleanups + [claimed];
        dueResets, dueCleanups := dueResets + [DueResets()], dueCleanups + [DueProvisions()];
      }
      if 10 * |works| >= |old(DueResets())| {
        EveryDueRowIsAttempted(dueResets, resets);
      }
      if 10 * |works| >= |old(DueProvisions())| {
        EveryDueRowIsAttempted(dueCleanups, cleanups);
      }
    }
  }

  // ----- sweeps do not starve -----

  lemma NextIsDue<T>(batch: seq<T>, due: set<T>, i: nat)
    requires IsBatch(batch, due) && i < |batch|
    ensures batch[i] in due - Elements(batch[..i])
  {
    assert batch[i] in Elements(batch);
  }

  function Elements<T>(s: seq<T>): set<T> {
    set x <- s
  }

  /** The result of a query with `take: 10`. */
  predicate IsBatch<T(==)>(batch: seq<T>, due: set<T>) {
    && (forall i, j :: 0 <= i < j < |batch| ==> batch[i] != batch[j])
    && Elements(batch) <= due
    && |batch| == if |due| < 10 then |due| else 10
  }

  method Batch<T(==)>(due: set<T>) returns (batch: seq<T>)
    ensures IsBatch(batch, due)
  {
    batch := [];
    var rest := due;
    while |batch| < 10 && rest != {}
      invariant rest == due - Elements(batch) && Elements(batch) <= due
      invariant |batch| <= 10 && |due| == |batch| + |rest|
      invariant forall i, j :: 0 <= i < j < |batch| ==> batch[i] != batch[j]
    {
      var x :| x in rest;
      rest := rest - {x};
      batch := batch + [x];
    }
  }

  lemma NoneYet<T>()
    ensures Elements<T>([]) == {}
  {
  }

  lemma OneMore<T>(batch: seq<T>, i: nat)
    requires i < |batch|
    ensures Elements(batch[..i + 1]) == Elements(batch[..i]) + {batch[i]}
  {
    assert batch[..i + 1] == batch[..i] + [batch[i]];
  }

  lemma {:induction false} BatchSize<T>(batch: seq<T>)
    requires forall i, j :: 0 <= i < j < |batch| ==> batch[i] != batch[j]
    ensures |Elements(batch)| == |batch|
  {
    if batch != [] {
      var n := |batch| - 1;
      BatchSize(batch[..n]);
      OneMore(batch, n);
      assert batch[..n + 1] == batch;
      assert batch[n] !in batch[..n];
    }
  }

  /** The due rows before, between and after a series of sweeps, and what each one took. */
  ghost predicate Sweeps<T(!new)>(due: seq<set<T>>, batches: seq<seq<T>>) {
    && |due| == |batches| + 1
    && forall i | 0 <= i < |batches| :: IsBatch(batches[i], due[i]) && due[i + 1] == due[i] - Elements(batches[i])
  }

  lemma NextSweep<T(!new)>(due: seq<set<T>>, batches: seq<seq<T>>, batch: seq<T>, after: set<T>)
    requires Sweeps(due, batches) && IsBatch(batch, due[|batches|]) && after == due[|batches|] - Elements(batch)
    ensures Sweeps(due + [after], batches + [batch])
  {
    hide IsBatch, Elements;
  }

  lemma SweepShrinks<T>(before: set<T>, batch: seq<T>)
    requires IsBatch(batch, before)
    ensures |before - Elements(batch)| == if |before| <= 10 then 0 else |before| - 10
  {
    BatchSize(batch);
  }

  lemma {:induction false} DueAfter<T(!new)>(due: seq<set<T>>, batches: seq<seq<T>>, k: nat)
    requires Sweeps(due, batches) && k < |due|
    ensures |due[k]| == if |due[0]| <= 10 * k then 0 else |due[0]| - 10 * k
  {
    if k > 0 {
      hide IsBatch, Elements;
      DueAfter(due, batches, k - 1);
      SweepShrinks(due[k - 1], batches[k - 1]);
    }
  }

  /** No due row starves: with n rows due, every one of them has been attempted after
      ceil(n / 10) sweeps, whatever Labs answers. */
  lemma EveryDueRowIsAttempted<T(!new)>(due: seq<set<T>>, batches: seq<seq<T>>)
    requires Sweeps(due, batches) && 10 * |batches| >= |due[0]|
    ensures due[|batches|] == {} && forall x <- due[0] :: exists i | 0 <= i < |batches| :: x in batches[i]
  {
    hide IsBatch;
    DueAfter(due, batches, |batches|);
    forall x <- due[0] ensures exists i | 0 <= i < |batches| :: x in batches[i] {
      var i := 0;
      while x in due[i + 1]
        invariant 0 <= i < |batches| && x in due[i]
        decreases |batches| - i
      {
        i := i + 1;
      }
      assert x in Elements(batches[i]);
    }
  }

  /** One own statement at the front of a run. */
  lemma OneStep(s: State, a: Action, rest: seq<Action>)
    ensures Run(s, [a] + rest) == Run(Step(s, a), rest)
  {
    hide Step;
    assert ([a] + rest)[0] == a && ([a] + rest)[1..] == rest;
  }

  /** One await at the front of a run. */
  lemma Awaited(s: State, env: seq<Action>, rest: seq<Action>, pid: Pid)
    requires Foreign(env, pid) && pid in s.procs
    ensures Run(s, env + rest) == Run(Run(s, env), rest)
    ensures pid in Run(s, env).procs && Run(s, env).procs[pid] == s.procs[pid]
  {
    hide Step;
    RunAppend(s, env, rest);
    ForeignKeepsProc(s, env, pid);
  }

  lemma FailedPostIsOneMore(s: State, env: seq<Action>, pid: Pid, l: LabId)
    requires pid in Run(s, env).procs && Run(s, env).procs[pid] == Posting(l)
    ensures Run(s, env + [Advance(pid, false, None)]) == Step(Run(s, env), Advance(pid, false, None))
  {
    hide Step;
    var a := Advance(pid, false, None);
    RunAppend(s, env, [a]);
    assert [a][0] == a && [a][1..] == [];
  }

  lemma BeginKeepsInv(s: State, pid: Pid, p: Proc)
    requires Inv(s) && pid !in s.procs && (p.ResetRead? || p.Claim?)
    ensures Inv(Goto(s, pid, p))
  {
    hide Inv;
    var a := Begin(pid, if p.ResetRead? then ResetRequest(p.w) else CleanupRequest(p.l));
    assert Step(s, a) == Goto(s, pid, p);
    StepKeepsInv(s, a);
  }

  /** The statements of `finishReset` and `cleanupProvision` are always fenced. */
  lemma ResetCodeKeepsInv(s: State, pid: Pid, ok: bool)
    requires Inv(s) && pid in s.procs
    requires var p := s.procs[pid]; !p.MarkMissing? && !p.Rebuild? && !p.Schedule?
    ensures Inv(Step(s, Advance(pid, ok, None)))
  {
    hide Step, Inv, MoveOf;
    OnlyScheduleReserves(s, s.procs[pid], ok, None);
    StepKeepsInv(s, Advance(pid, ok, None));
  }

  lemma ClaimMissesQuietly(s: State, pid: Pid, l: LabId)
    requires pid in s.procs && s.procs[pid] == Claim(l)
    requires !(l in s.provisions && (!s.provisions[l].claimed || s.provisions[l].cleanupAt <= s.now))
    ensures Step(s, Go(pid)).provisions == s.provisions && Step(s, Go(pid)).live == s.live
  {
  }
}
