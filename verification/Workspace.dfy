/** The VM lifecycle as a state machine: one step per SQL statement or
    transaction of `WorkspaceService`, per observable effect inside Labs, and per
    enrollment transaction that touches a workspace.  Every request, background
    task and sweeper is a process: its entry in `procs` is its program counter
    together with the local variables it still needs.  A run is any sequence of
    actions, so processes interleave freely and may die at any point. */
module Workspace {
  import opened Options

  type WorkspaceId = nat
  type EnrollmentId = nat
  type Pid = nat

  const STALE_CREATING_MS := 300_000
  const CREATE_VM_SETTLE_MS := 210_000
  const RESET_RETRY_MS := 60_000
  const UNKNOWN_CREATE_RECHECK_MS := 3_600_000

  /** The name of a VM: the workspace id alone for provision generation 0, and
      `<id>-<generation>` afterwards.  `LabNames` shows the text form injective. */
  datatype LabId = LabId(workspace: WorkspaceId, generation: nat)

  datatype Status = Creating | Running | Stopped | Error | Resetting

  datatype Enrollment = Enrollment(generation: nat, active: bool)

  datatype WorkspaceRow = WorkspaceRow(
    enrollment: EnrollmentId,
    status: Status,
    labId: Option<LabId>,
    generation: nat,
    startedAt: Option<nat>,
    retryAt: Option<nat>)

  /** A tombstone written before each POST; `claimed` is status CLEANUP. */
  datatype Provision = Provision(claimed: bool, settled: bool, cleanupAt: nat)

  /** What Labs will still do, or has done, for a POST. */
  datatype Post = Open | Made | Refused

  datatype Proc =
    // create
    | CreateRead(e: EnrollmentId, eg: nat)
    | CreateInsert(e: EnrollmentId, eg: nat)
    | CreateRevive(w: WorkspaceId, eg: nat)
    // `wrote` is the provision generation this request's own update wrote; the code forgets it
    | Reread(w: WorkspaceId, eg: nat, wrote: nat)
    // scheduleProvision and provisionInBackground
    | Schedule(w: WorkspaceId, e: EnrollmentId, g: nat, eg: nat)
    | Posting(l: LabId)
    | Settle(l: LabId)
    | Attach(l: LabId)
    // cleanupProvision
    | Claim(l: LabId)
    | ReadProvision(l: LabId)
    | DeleteVm(l: LabId, sawSettled: bool)
    | ConfirmVm(l: LabId, sawSettled: bool)
    | DropProvision(l: LabId, sawSettled: bool)
    | CleanupFailed(l: LabId)
    // finishReset
    | ResetRead(w: WorkspaceId)
    | ResetDefer(w: WorkspaceId, started: nat)
    | ResetDelete(w: WorkspaceId, l: LabId)
    | ResetConfirm(w: WorkspaceId, l: LabId)
    | ResetDrop(w: WorkspaceId)
    | ResetFailed(w: WorkspaceId)
    // stopWorkspace and markVmMissing
    | StopVm(w: WorkspaceId, l: LabId)
    | StopDone(w: WorkspaceId)
    | MarkMissing(w: WorkspaceId, l: LabId)
    // start and rebuildMissingVm
    | StartRead(e: EnrollmentId, eg: nat)
    | StartVm(w: WorkspaceId, l: LabId, eg: nat)
    | StartDone(w: WorkspaceId)
    | Rebuild(w: WorkspaceId, l: LabId, eg: nat)
    // getForEnrollment finding a stale CREATING row
    | Expire(w: WorkspaceId, g: nat)

  datatype State = State(
    enrollments: map<EnrollmentId, Enrollment>,
    workspaces: map<WorkspaceId, WorkspaceRow>,
    provisions: map<LabId, Provision>,
    // Labs
    posts: map<LabId, Post>,
    live: set<LabId>,
    // running code
    procs: map<Pid, Proc>,
    now: nat,
    // history: ids handed out so far, and the enrollment generation each VM was reserved for
    usedIds: set<WorkspaceId>,
    reservedFor: map<LabId, nat>)

  const INITIAL := State(map[], map[], map[], map[], {}, map[], 0, {}, map[])

  datatype Request =
    | CreateRequest(e: EnrollmentId)
    | StartRequest(e: EnrollmentId)
    | StopRequest(w: WorkspaceId)
    | PollRequest(w: WorkspaceId)
    | ResetRequest(w: WorkspaceId)
    | CleanupRequest(l: LabId)

  datatype Action =
    | Begin(pid: Pid, request: Request)
    // `ok` resolves whatever the outside world decides at this step;
    // `w` is the row an enrollment lookup finds, or the id a new row gets.
    | Advance(pid: Pid, ok: bool, w: Option<WorkspaceId>)
    | Crash(pid: Pid)
    | LabsMakes(l: LabId)
    | LabsRefuses(l: LabId)
    | LabsLoses(l: LabId)
    | Tick(ms: nat)
    | Enroll(e: EnrollmentId)
    | Deactivate(e: EnrollmentId)
    | Restart(e: EnrollmentId, w: Option<WorkspaceId>)

  // ----- lookups -----

  /** The result of `workspace.findUnique({ where: { enrollmentId } })`. */
  predicate Finds(s: State, e: EnrollmentId, found: Option<WorkspaceId>) {
    match found
    case Some(w) => w in s.workspaces && s.workspaces[w].enrollment == e
    case None => forall w <- s.workspaces :: s.workspaces[w].enrollment != e
  }

  predicate Current(s: State, e: EnrollmentId, eg: nat) {
    e in s.enrollments && s.enrollments[e].generation == eg && s.enrollments[e].active
  }

  predicate HasStatus(s: State, w: WorkspaceId, status: Status) {
    w in s.workspaces && s.workspaces[w].status == status
  }

  /** The guard shared by scheduling, failing and attaching one provision attempt. */
  predicate Awaits(s: State, w: WorkspaceId, g: nat) {
    HasStatus(s, w, Creating) && s.workspaces[w].generation == g
  }

  predicate Closed(s: State, l: LabId) {
    l in s.posts && s.posts[l] != Open
  }

  predicate Holds(s: State, w: WorkspaceId, l: LabId) {
    w in s.workspaces && s.workspaces[w].labId == Some(l)
  }

  function ResetTarget(w: WorkspaceId, row: WorkspaceRow): LabId {
    match row.labId
    case Some(l) => l
    case None => LabId(w, 0)
  }

  // ----- writes and moves -----

  /** What one statement or transaction writes. */
  datatype Write =
    | NoWrite
    | PutRow(w: WorkspaceId, row: WorkspaceRow)
    | NewRow(w: WorkspaceId, row: WorkspaceRow)
    | DropRow(w: WorkspaceId)
    | Reserve(l: LabId, eg: nat)
    | PutProvision(l: LabId, provision: Provision)
    | TakeProvision(l: LabId)
    // the attach transaction: the provision row goes, the workspace row gets its VM
    | AttachVm(l: LabId, row: WorkspaceRow)
    // a DELETE takes effect inside Labs
    | KillVm(l: LabId)

  /** One step of a process: what it writes and where it goes on, if it does. */
  datatype Move = Move(write: Write, next: Option<Proc>)

  const END := Move(NoWrite, None)

  function Become(p: Proc): Move {
    Move(NoWrite, Some(p))
  }

  function Apply(s: State, x: Write): State {
    match x
    case NoWrite => s
    case PutRow(w, row) => s.(workspaces := s.workspaces[w := row])
    case NewRow(w, row) => s.(workspaces := s.workspaces[w := row], usedIds := s.usedIds + {w})
    case DropRow(w) => s.(workspaces := s.workspaces - {w})
    case Reserve(l, eg) =>
      s.(provisions := s.provisions[l := Provision(false, false, s.now + CREATE_VM_SETTLE_MS)],
         posts := s.posts[l := Open],
         reservedFor := s.reservedFor[l := eg])
    case PutProvision(l, row) => s.(provisions := s.provisions[l := row])
    case TakeProvision(l) => s.(provisions := s.provisions - {l})
    case AttachVm(l, row) =>
      s.(provisions := s.provisions - {l}, workspaces := s.workspaces[l.workspace := row])
    case KillVm(l) => s.(live := s.live - {l})
  }

  function Exit(s: State, pid: Pid): State {
    s.(procs := s.procs - {pid})
  }

  function Goto(s: State, pid: Pid, p: Proc): State {
    s.(procs := s.procs[pid := p])
  }

  function Land(s: State, pid: Pid, next: Option<Proc>): State {
    match next
    case None => Exit(s, pid)
    case Some(q) => Goto(s, pid, q)
  }

  // ----- row updates -----

  function PutStatus(s: State, w: WorkspaceId, status: Status): Write
    requires w in s.workspaces
  {
    PutRow(w, s.workspaces[w].(status := status))
  }

  function PutRetry(s: State, w: WorkspaceId, at: nat): Write
    requires w in s.workspaces
  {
    PutRow(w, s.workspaces[w].(retryAt := Some(at)))
  }

  function PutCleanupAt(s: State, l: LabId, at: nat): Write
    requires l in s.provisions
  {
    PutProvision(l, s.provisions[l].(cleanupAt := at))
  }

  /** ERROR or STOPPED back to CREATING under the next provision generation. */
  function Revive(s: State, w: WorkspaceId): Write
    requires w in s.workspaces
  {
    var row := s.workspaces[w];
    PutRow(w, row.(status := Creating, startedAt := Some(s.now), generation := row.generation + 1))
  }

  // ----- one function per multi-statement transaction -----

  function ScheduleTx(s: State, w: WorkspaceId, e: EnrollmentId, g: nat, eg: nat): Move {
    var l := LabId(w, g);
    if !Current(s, e, eg) then
      if Awaits(s, w, g) then
        Move(PutRow(w, s.workspaces[w].(status := Resetting, startedAt := None, retryAt := None)), None)
      else
        END
    else if !Awaits(s, w, g) || l in s.provisions then
      END
    else
      Move(Reserve(l, eg), Some(Posting(l)))
  }

  function AttachTx(s: State, l: LabId): Move {
    if l in s.provisions && !s.provisions[l].claimed && Awaits(s, l.workspace, l.generation) then
      Move(AttachVm(l, s.workspaces[l.workspace].(status := Running, startedAt := None, labId := Some(l))), None)
    else
      // no row to claim, or the claim is rolled back: clean the VM up instead
      Become(Claim(l))
  }

  function ClaimProvision(s: State, l: LabId): Move {
    if l in s.provisions && (!s.provisions[l].claimed || s.provisions[l].cleanupAt <= s.now) then
      Move(PutProvision(l, s.provisions[l].(claimed := true, cleanupAt := s.now + RESET_RETRY_MS)),
           Some(ReadProvision(l)))
    else
      END
  }

  function DropTx(s: State, l: LabId, sawSettled: bool): Move {
    if l !in s.provisions || !s.provisions[l].claimed then END
    else if sawSettled then Move(TakeProvision(l), None)
    else Move(PutCleanupAt(s, l, s.now + UNKNOWN_CREATE_RECHECK_MS), None)
  }

  function ReadForReset(s: State, w: WorkspaceId): Move {
    if !HasStatus(s, w, Resetting) then END
    else
      var row := s.workspaces[w];
      if row.startedAt.Some? && s.now < row.startedAt.value + CREATE_VM_SETTLE_MS
      then Become(ResetDefer(w, row.startedAt.value))
      else Become(ResetDelete(w, ResetTarget(w, row)))
  }

  function RestartTx(s: State, e: EnrollmentId, found: Option<WorkspaceId>): State {
    if e !in s.enrollments || !Finds(s, e, found) then s
    else
      var s1 := s.(enrollments := s.enrollments[e :=
                     Enrollment(s.enrollments[e].generation + 1, false)]);
      match found
      case None => s1
      case Some(w) => Apply(s1, PutRow(w, s1.workspaces[w].(status := Resetting, retryAt := None)))
  }

  // ----- moves -----

  /** Where a request starts, if it is accepted at all. */
  function FirstMove(s: State, r: Request): Option<Proc> {
    match r
    case CreateRequest(e) =>
      if e in s.enrollments && s.enrollments[e].active
      then Some(CreateRead(e, s.enrollments[e].generation)) else None
    case StartRequest(e) =>
      if e in s.enrollments then Some(StartRead(e, s.enrollments[e].generation)) else None
    case StopRequest(w) =>
      if HasStatus(s, w, Running) && s.workspaces[w].labId.Some?
      then Some(StopVm(w, s.workspaces[w].labId.value)) else None
    case PollRequest(w) =>
      if HasStatus(s, w, Creating) && s.workspaces[w].startedAt.Some?
         && s.now > s.workspaces[w].startedAt.value + STALE_CREATING_MS
      then Some(Expire(w, s.workspaces[w].generation)) else None
    case ResetRequest(w) => Some(ResetRead(w))
    case CleanupRequest(l) => Some(Claim(l))
  }

  function BeginStep(s: State, pid: Pid, r: Request): State {
    if pid in s.procs || FirstMove(s, r).None? then s else Goto(s, pid, FirstMove(s, r).value)
  }

  /** `w` is the row an enrollment lookup finds, or the id a new row gets. */
  function CreateMove(s: State, p: Proc, w: Option<WorkspaceId>): Move
    requires p.CreateRead? || p.CreateInsert? || p.CreateRevive? || p.Reread?
  {
    match p
    case CreateRead(e, eg) =>
      if !Finds(s, e, w) then Become(p)
      else if w.None? then Become(CreateInsert(e, eg))
      else if s.workspaces[w.value].status == Error then Become(CreateRevive(w.value, eg))
      else END
    case CreateInsert(e, eg) =>
      if !Finds(s, e, None) then END  // unique constraint on enrollmentId
      else if w.None? || w.value in s.usedIds then Become(p)
      else Move(NewRow(w.value, WorkspaceRow(e, Creating, None, 0, Some(s.now), None)),
                Some(Schedule(w.value, e, 0, eg)))
    case CreateRevive(id, eg) =>
      if HasStatus(s, id, Error)
      then Move(Revive(s, id), Some(Reread(id, eg, s.workspaces[id].generation + 1))) else END
    case Reread(id, eg, _) =>
      if HasStatus(s, id, Creating)
      then Become(Schedule(id, s.workspaces[id].enrollment, s.workspaces[id].generation, eg))
      else END
  }

  /** `ok` resolves what Labs answers. */
  function ProvisionMove(s: State, p: Proc, ok: bool): Move
    requires p.Schedule? || p.Posting? || p.Settle? || p.Attach?
  {
    match p
    case Schedule(w, e, g, eg) => ScheduleTx(s, w, e, g, eg)
    case Posting(l) =>
      if ok then
        // a successful answer can only follow the creation of the VM
        if l in s.posts && s.posts[l] == Made then Become(Settle(l)) else Become(p)
      else if Awaits(s, l.workspace, l.generation) then Move(PutStatus(s, l.workspace, Error), None)
      else END
    case Settle(l) =>
      if l in s.provisions
      then Move(PutProvision(l, s.provisions[l].(settled := true)), Some(Attach(l)))
      else Become(Attach(l))
    case Attach(l) => AttachTx(s, l)
  }

  function CleanupMove(s: State, p: Proc, ok: bool): Move
    requires p.Claim? || p.ReadProvision? || p.DeleteVm? || p.ConfirmVm? || p.DropProvision? || p.CleanupFailed?
  {
    match p
    case Claim(l) => ClaimProvision(s, l)
    case ReadProvision(l) => Become(DeleteVm(l, l in s.provisions && s.provisions[l].settled))
    case DeleteVm(l, sawSettled) => Move(if ok then KillVm(l) else NoWrite, Some(ConfirmVm(l, sawSettled)))
    case ConfirmVm(l, sawSettled) =>
      Become(if ok && l !in s.live then DropProvision(l, sawSettled) else CleanupFailed(l))
    case DropProvision(l, sawSettled) => DropTx(s, l, sawSettled)
    case CleanupFailed(l) =>
      if l in s.provisions && s.provisions[l].claimed
      then Move(PutCleanupAt(s, l, s.now + RESET_RETRY_MS), None) else END
  }

  function ResetMove(s: State, p: Proc, ok: bool): Move
    requires p.ResetRead? || p.ResetDefer? || p.ResetDelete? || p.ResetConfirm? || p.ResetDrop? || p.ResetFailed?
  {
    match p
    case ResetRead(w) => ReadForReset(s, w)
    case ResetDefer(w, started) =>
      if HasStatus(s, w, Resetting) then Move(PutRetry(s, w, started + CREATE_VM_SETTLE_MS), None) else END
    case ResetDelete(w, l) => Move(if ok then KillVm(l) else NoWrite, Some(ResetConfirm(w, l)))
    case ResetConfirm(w, l) => Become(if ok && l !in s.live then ResetDrop(w) else ResetFailed(w))
    case ResetDrop(w) => if HasStatus(s, w, Resetting) then Move(DropRow(w), None) else END
    case ResetFailed(w) =>
      if HasStatus(s, w, Resetting) then Move(PutRetry(s, w, s.now + RESET_RETRY_MS), None) else END
  }

  function StopMove(s: State, p: Proc, ok: bool): Move
    requires p.StopVm? || p.StopDone? || p.MarkMissing? || p.Expire?
  {
    match p
    case StopVm(w, l) =>
      if ok then Become(StopDone(w)) else if l !in s.live then Become(MarkMissing(w, l)) else END
    case StopDone(w) => if HasStatus(s, w, Running) then Move(PutStatus(s, w, Stopped), None) else END
    case MarkMissing(w, _) => if HasStatus(s, w, Running) then Move(PutStatus(s, w, Error), None) else END
    case Expire(w, g) => if Awaits(s, w, g) then Move(PutStatus(s, w, Error), None) else END
  }

  function StartMove(s: State, p: Proc, ok: bool, found: Option<WorkspaceId>): Move
    requires p.StartRead? || p.StartVm? || p.StartDone? || p.Rebuild?
  {
    match p
    case StartRead(e, eg) =>
      if !Finds(s, e, found) then Become(p)
      else if found.Some? && s.workspaces[found.value].status == Stopped && s.workspaces[found.value].labId.Some?
      then Become(StartVm(found.value, s.workspaces[found.value].labId.value, eg))
      else END
    case StartVm(w, l, eg) =>
      if ok then Become(StartDone(w)) else if l !in s.live then Become(Rebuild(w, l, eg)) else END
    case StartDone(w) => if HasStatus(s, w, Stopped) then Move(PutStatus(s, w, Running), None) else END
    case Rebuild(w, _, eg) =>
      if HasStatus(s, w, Stopped)
      then Move(Revive(s, w), Some(Reread(w, eg, s.workspaces[w].generation + 1))) else END
  }

  function MoveOf(s: State, p: Proc, ok: bool, w: Option<WorkspaceId>): Move {
    if p.CreateRead? || p.CreateInsert? || p.CreateRevive? || p.Reread? then CreateMove(s, p, w)
    else if p.Schedule? || p.Posting? || p.Settle? || p.Attach? then ProvisionMove(s, p, ok)
    else if p.Claim? || p.ReadProvision? || p.DeleteVm? || p.ConfirmVm? || p.DropProvision? || p.CleanupFailed?
    then CleanupMove(s, p, ok)
    else if p.ResetRead? || p.ResetDefer? || p.ResetDelete? || p.ResetConfirm? || p.ResetDrop? || p.ResetFailed?
    then ResetMove(s, p, ok)
    else if p.StopVm? || p.StopDone? || p.MarkMissing? || p.Expire? then StopMove(s, p, ok)
    else StartMove(s, p, ok, w)
  }

  function AdvanceStep(s: State, pid: Pid, ok: bool, w: Option<WorkspaceId>): State
    requires pid in s.procs
  {
    var m := MoveOf(s, s.procs[pid], ok, w);
    Land(Apply(s, m.write), pid, m.next)
  }

  function Step(s: State, a: Action): State {
    match a
    case Begin(pid, r) => BeginStep(s, pid, r)
    case Advance(pid, ok, w) => if pid in s.procs then AdvanceStep(s, pid, ok, w) else s
    case Crash(pid) => Exit(s, pid)
    case LabsMakes(l) =>
      if l in s.posts && s.posts[l] == Open then s.(posts := s.posts[l := Made], live := s.live + {l}) else s
    case LabsRefuses(l) =>
      if l in s.posts && s.posts[l] == Open then s.(posts := s.posts[l := Refused]) else s
    case LabsLoses(l) => s.(live := s.live - {l})
    case Tick(ms) => s.(now := s.now + ms)
    case Enroll(e) =>
      var g := if e in s.enrollments then s.enrollments[e].generation else 0;
      s.(enrollments := s.enrollments[e := Enrollment(g, true)])
    case Deactivate(e) =>
      if e in s.enrollments
      then s.(enrollments := s.enrollments[e := s.enrollments[e].(active := false)]) else s
    case Restart(e, w) => RestartTx(s, e, w)
  }

  function Run(s: State, run: seq<Action>): State
    decreases |run|
  {
    if run == [] then s else Run(Step(s, run[0]), run[1..])
  }
}
