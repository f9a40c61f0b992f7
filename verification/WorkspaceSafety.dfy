/** What the interleavings of the VM lifecycle keep about VMs.  Two hypotheses, each no
    stronger than what it is for (`WorkspaceRaces` proves them exact): in `Careful` runs a
    provision row leaves only when its POST is settled, in `Fenced` runs no VM is lost. */
module WorkspaceSafety {
  import opened Options
  import opened Workspace
  import opened WorkspaceRuns

  // ----- hypotheses -----

  /** The control points that trust an answer about an earlier VM of this name: they
      still attach it, or drop its provision row. */
  predicate Recalls(p: Proc, l: LabId) {
    p == Attach(l) || p == DeleteVm(l, true) || p == ConfirmVm(l, true) || p == DropProvision(l, true)
  }

  predicate Forgotten(s: State, l: LabId) {
    forall pid <- s.procs :: !Recalls(s.procs[pid], l)
  }

  predicate ReservesAgain(s: State, a: Action) {
    NameReserved(s, a).Some? && NameReserved(s, a).value in s.reservedFor
  }

  /** A name that was reserved before is reserved again only when every process has
      forgotten its earlier VM. */
  predicate Careful(s: State, a: Action) {
    ReservesAgain(s, a) ==> Forgotten(s, NameReserved(s, a).value)
  }

  predicate CarriesLive(s: State, w: WorkspaceId) {
    w in s.workspaces && s.workspaces[w].labId.Some? && s.workspaces[w].labId.value in s.live
  }

  /** Besides, a row is declared missing only if the VM it carries now is dead. */
  predicate Fenced(s: State, a: Action) {
    Careful(s, a) && !DeclaresLiveMissing(s, a)
  }

  predicate DeclaresLiveMissing(s: State, a: Action) {
    && a.Advance? && a.pid in s.procs
    && match s.procs[a.pid]
       case MarkMissing(w, _) => HasStatus(s, w, Running) && CarriesLive(s, w)
       case Rebuild(w, _, _) => HasStatus(s, w, Stopped) && CarriesLive(s, w)
       case _ => false
  }

  predicate CarefulRun(s: State, run: seq<Action>)
    decreases |run|
  {
    run != [] ==> Careful(s, run[0]) && CarefulRun(Step(s, run[0]), run[1..])
  }

  predicate FencedRun(s: State, run: seq<Action>)
    decreases |run|
  {
    run != [] ==> Fenced(s, run[0]) && FencedRun(Step(s, run[0]), run[1..])
  }

  // ----- invariants -----

  /** A VM that cannot come alive again under its present reservation. */
  predicate Gone(s: State, l: LabId) {
    Closed(s, l) && l !in s.live
  }

  predicate Unsettled(s: State, l: LabId) {
    l in s.provisions && !s.provisions[l].settled
  }

  predicate SettledAway(s: State, l: LabId) {
    Closed(s, l) && (l in s.provisions ==> s.provisions[l].settled)
  }

  ghost predicate PostTables(s: State) {
    && (forall l <- s.provisions :: s.provisions[l].settled ==> Closed(s, l))
    && (forall w <- s.workspaces :: s.workspaces[w].labId.Some? ==> Closed(s, s.workspaces[w].labId.value))
  }

  ghost predicate ProcPosted(s: State, p: Proc) {
    match p
    case Posting(l) => Unsettled(s, l)
    case Settle(l) => Unsettled(s, l) && Closed(s, l)
    case Attach(l) => SettledAway(s, l)
    case DeleteVm(l, sawSettled) => sawSettled ==> SettledAway(s, l)
    case ConfirmVm(l, sawSettled) => sawSettled ==> SettledAway(s, l)
    case DropProvision(l, sawSettled) => sawSettled ==> SettledAway(s, l) && Gone(s, l)
    case ResetDrop(w) =>
      w in s.workspaces && s.workspaces[w].labId.Some? ==> Gone(s, s.workspaces[w].labId.value)
    case _ => true
  }

  /** The task that sent the POST of a name, until it has marked the row settled. */
  function PostOf(p: Proc): Option<LabId> {
    match p
    case Posting(l) => Some(l)
    case Settle(l) => Some(l)
    case _ => None
  }

  ghost predicate OnePoster(s: State) {
    forall p <- s.procs, q <- s.procs :: PostOf(s.procs[p]).Some? && PostOf(s.procs[p]) == PostOf(s.procs[q]) ==> p == q
  }

  /** POSTs, provision rows and the processes between them. */
  ghost predicate PostsOk(s: State) {
    PostTables(s) && OnePoster(s) && forall pid <- s.procs :: ProcPosted(s, s.procs[pid])
  }

  /** Every VM that is alive, or may still come alive, can be found again. */
  predicate Traceable(s: State, l: LabId) {
    l in s.provisions || Holds(s, l.workspace, l)
  }

  predicate NoVmLost(s: State) {
    && (forall l <- s.live :: Traceable(s, l))
    && (forall l <- s.posts :: s.posts[l] == Open ==> Traceable(s, l))
  }

  ghost predicate VmsOk(s: State) {
    && (forall l <- s.live :: Closed(s, l))
    && NoVmLost(s)
    && (forall w <- s.workspaces :: HasStatus(s, w, Creating) || HasStatus(s, w, Error) ==> !CarriesLive(s, w))
  }

  ghost predicate Inv(s: State) {
    Basic(s) && PostsOk(s) && VmsOk(s)
  }

  // ----- writes and POSTs -----

  /** What a process at `p` may write, as far as POSTs are concerned. */
  predicate PostFine(s: State, p: Proc, x: Write) {
    match x
    case Reserve(l, _) => Forgotten(s, l)
    case PutProvision(l, row) =>
      l in s.provisions && (s.provisions[l].settled ==> row.settled)
      && (row.settled && !s.provisions[l].settled ==> p == Settle(l) && Closed(s, l))
    case TakeProvision(l) => SettledAway(s, l) && Gone(s, l)
    case AttachVm(l, _) => SettledAway(s, l)
    case DropRow(w) => w in s.workspaces && s.workspaces[w].labId.Some? ==> Gone(s, s.workspaces[w].labId.value)
    case _ => true
  }

  lemma HoldersAreOlder(s: State, l: LabId, w: WorkspaceId)
    requires TablesBasic(s) && Awaits(s, l.workspace, l.generation) && w in s.workspaces
    ensures s.workspaces[w].labId != Some(l)
  {
    assert RowBasic(s, w);
  }

  lemma WriteKeepsPosts(s: State, p: Proc, x: Write)
    requires TablesBasic(s) && PostTables(s) && Fine(s, x) && PostFine(s, p, x)
    ensures PostTables(Apply(s, x))
  {
    hide TablesBasic;
    if x.Reserve? {
      forall w | w in s.workspaces ensures s.workspaces[w].labId != Some(x.l) {
        HoldersAreOlder(s, x.l, w);
      }
    }
  }

  /** What is known of a VM stays, unless its name is reserved by this write. */
  lemma WriteLasts(s: State, p: Proc, x: Write, l: LabId)
    requires PostFine(s, p, x) && !(x.Reserve? && x.l == l)
    ensures Closed(s, l) ==> Closed(Apply(s, x), l)
    ensures Gone(s, l) ==> Gone(Apply(s, x), l)
    ensures SettledAway(s, l) ==> SettledAway(Apply(s, x), l)
  {
  }

  /** Other processes keep their footing. */
  lemma OthersStayPosted(s: State, pid: Pid, x: Write, q: Pid)
    requires Basic(s) && PostsOk(s) && pid in s.procs && q in s.procs && q != pid
    requires Fine(s, x) && PostFine(s, s.procs[pid], x)
    ensures ProcPosted(Apply(s, x), s.procs[q])
  {
    hide ProcBasic, TablesBasic, Fine, PostFine;
    var p := s.procs[q];
    assert ProcPosted(s, p);
    match p
    case Posting(l) => UnsettledStays(s, pid, x, q, l);
    case Settle(l) => UnsettledStays(s, pid, x, q, l); WriteLasts(s, s.procs[pid], x, l);
    case Attach(l) => RecalledLasts(s, pid, x, q, l);
    case DeleteVm(l, saw) => if saw { RecalledLasts(s, pid, x, q, l); }
    case ConfirmVm(l, saw) => if saw { RecalledLasts(s, pid, x, q, l); }
    case DropProvision(l, saw) => if saw { RecalledLasts(s, pid, x, q, l); }
    case ResetDrop(w) => ResetLasts(s, pid, x, q, w);
    case _ =>
  }

  lemma UnsettledStays(s: State, pid: Pid, x: Write, q: Pid, l: LabId)
    requires OnePoster(s) && pid in s.procs && q in s.procs && q != pid
    requires Fine(s, x) && PostFine(s, s.procs[pid], x)
    requires PostOf(s.procs[q]) == Some(l) && Unsettled(s, l)
    ensures Unsettled(Apply(s, x), l) && !(x.Reserve? && x.l == l)
  {
  }

  lemma RecalledLasts(s: State, pid: Pid, x: Write, q: Pid, l: LabId)
    requires q in s.procs && Recalls(s.procs[q], l) && pid in s.procs && PostFine(s, s.procs[pid], x)
    ensures SettledAway(s, l) ==> SettledAway(Apply(s, x), l)
    ensures Gone(s, l) ==> Gone(Apply(s, x), l)
  {
    hide Apply;
    assert !(x.Reserve? && x.l == l);
    WriteLasts(s, s.procs[pid], x, l);
  }

  lemma ResetLasts(s: State, pid: Pid, x: Write, q: Pid, w: WorkspaceId)
    requires Basic(s) && q in s.procs && s.procs[q] == ResetDrop(w) && pid in s.procs
    requires Fine(s, x) && PostFine(s, s.procs[pid], x) && ProcPosted(s, ResetDrop(w))
    ensures ProcPosted(Apply(s, x), ResetDrop(w))
  {
    hide NamesOk, RowsApart;
    assert ProcBasic(s, s.procs[q]);
    if w in s.workspaces && s.workspaces[w].labId.Some? {
      assert RowBasic(s, w);
      var l := s.workspaces[w].labId.value;
      assert !(x.Reserve? && x.l == l);
      WriteLasts(s, s.procs[pid], x, l);
    }
  }

  // ----- moves and POSTs -----

  /** `next` may become the poster of a name by reserving it or by having been it. */
  predicate MayBecome(s: State, p: Proc, next: Proc) {
    PostOf(next).Some? ==> PostOf(next).value !in s.provisions || PostOf(p) == PostOf(next)
  }

  ghost predicate PostedMove(s: State, p: Proc, m: Move) {
    && PostFine(s, p, m.write)
    && (m.next.Some? ==> ProcPosted(Apply(s, m.write), m.next.value) && MayBecome(s, p, m.next.value))
  }

  lemma ProvisionIsPosted(s: State, p: Proc, ok: bool)
    requires PostTables(s) && ProcPosted(s, p)
    requires p.Schedule? || p.Posting? || p.Settle? || p.Attach?
    requires var x := ProvisionMove(s, p, ok).write; x.Reserve? ==> Forgotten(s, x.l)
    ensures PostedMove(s, p, ProvisionMove(s, p, ok))
  {
  }

  lemma CleanupIsPosted(s: State, p: Proc, ok: bool)
    requires PostTables(s) && ProcPosted(s, p)
    requires p.Claim? || p.ReadProvision? || p.DeleteVm? || p.ConfirmVm? || p.DropProvision? || p.CleanupFailed?
    ensures PostedMove(s, p, CleanupMove(s, p, ok))
  {
  }

  lemma ResetIsPosted(s: State, p: Proc, ok: bool)
    requires TablesBasic(s) && PostTables(s) && ProcPosted(s, p) && ProcBasic(s, p)
    requires p.ResetRead? || p.ResetDefer? || p.ResetDelete? || p.ResetConfirm? || p.ResetDrop? || p.ResetFailed?
    ensures PostedMove(s, p, ResetMove(s, p, ok))
  {
    hide NamesOk, RowsApart;
    if p.ResetConfirm? && p.w in s.workspaces {
      RowIsBasic(s, p.w);
    }
  }

  /** Requests touch neither POSTs nor provision rows. */
  lemma RequestIsPosted(s: State, p: Proc, ok: bool, w: Option<WorkspaceId>)
    ensures (p.CreateRead? || p.CreateInsert? || p.CreateRevive? || p.Reread? ==> PostedMove(s, p, CreateMove(s, p, w)))
    ensures (p.StopVm? || p.StopDone? || p.MarkMissing? || p.Expire? ==> PostedMove(s, p, StopMove(s, p, ok)))
    ensures (p.StartRead? || p.StartVm? || p.StartDone? || p.Rebuild? ==> PostedMove(s, p, StartMove(s, p, ok, w)))
  {
    hide Apply;
  }

  lemma MoveIsPosted(s: State, p: Proc, ok: bool, w: Option<WorkspaceId>)
    requires TablesBasic(s) && PostTables(s) && ProcBasic(s, p) && ProcPosted(s, p)
    requires var x := MoveOf(s, p, ok, w).write; x.Reserve? ==> Forgotten(s, x.l)
    ensures PostedMove(s, p, MoveOf(s, p, ok, w))
  {
    hide CreateMove, ProvisionMove, CleanupMove, ResetMove, StopMove, StartMove;
    hide PostedMove, TablesBasic, PostTables, ProcPosted, ProcBasic, Forgotten;
    RequestIsPosted(s, p, ok, w);
    if p.Schedule? || p.Posting? || p.Settle? || p.Attach? {
      ProvisionIsPosted(s, p, ok);
    } else if p.Claim? || p.ReadProvision? || p.DeleteVm? || p.ConfirmVm? || p.DropProvision? || p.CleanupFailed? {
      CleanupIsPosted(s, p, ok);
    } else if p.ResetRead? || p.ResetDefer? || p.ResetDelete? || p.ResetConfirm? || p.ResetDrop? || p.ResetFailed? {
      ResetIsPosted(s, p, ok);
    }
  }

  // ----- careful steps -----

  lemma NewNameIsForgotten(s: State, l: LabId)
    requires TablesBasic(s) && PostsOk(s) && l !in s.reservedFor
    ensures Forgotten(s, l)
  {
    forall pid <- s.procs ensures !Recalls(s.procs[pid], l) {
      assert ProcPosted(s, s.procs[pid]);
    }
  }

  lemma CarefulIsForgotten(s: State, a: Action)
    requires TablesBasic(s) && PostsOk(s) && Careful(s, a) && NameReserved(s, a).Some?
    ensures Forgotten(s, NameReserved(s, a).value)
  {
    hide TablesBasic, PostsOk, NameReserved;
    if !ReservesAgain(s, a) {
      NewNameIsForgotten(s, NameReserved(s, a).value);
    }
  }

  /** The move of a careful step. */
  lemma CarefulMove(s: State, pid: Pid, ok: bool, w: Option<WorkspaceId>)
    requires Basic(s) && PostsOk(s) && pid in s.procs && Careful(s, Advance(pid, ok, w))
    ensures var m := MoveOf(s, s.procs[pid], ok, w);
            Fine(s, m.write) && PostedMove(s, s.procs[pid], m)
  {
    hide TablesBasic, MoveOf, PostedMove, Fine, PostTables, OnePoster, Careful;
    var p := s.procs[pid];
    assert ProcBasic(s, p) && ProcPosted(s, p);
    hide ProcBasic, ProcPosted;
    MoveIsFine(s, p, ok, w);
    if MoveOf(s, p, ok, w).write.Reserve? {
      CarefulIsForgotten(s, Advance(pid, ok, w));
    }
    MoveIsPosted(s, p, ok, w);
  }

  lemma ProcPostedIgnoresProcs(s: State, t: State, p: Proc)
    requires ProcPosted(s, p) && t == s.(procs := t.procs)
    ensures ProcPosted(t, p)
  {
  }

  lemma LandKeepsPosted(s: State, pid: Pid, m: Move)
    requires Basic(s) && PostsOk(s) && pid in s.procs && Fine(s, m.write) && PostedMove(s, s.procs[pid], m)
    ensures PostsOk(Land(Apply(s, m.write), pid, m.next))
  {
    hide TablesBasic, ProcBasic, Fine, ProcPosted, PostFine, MayBecome;
    var u := Apply(s, m.write);
    var t := Land(u, pid, m.next);
    WriteKeepsPosts(s, s.procs[pid], m.write);
    ApplyKeepsProcs(s, m.write);
    PostTablesIgnoreProcs(u, t);
    forall q <- t.procs ensures ProcPosted(t, t.procs[q]) {
      if q == pid {
        ProcPostedIgnoresProcs(u, t, m.next.value);
      } else {
        OthersStayPosted(s, pid, m.write, q);
        ProcPostedIgnoresProcs(u, t, s.procs[q]);
      }
    }
    hide Apply, PostTables;
    PostersStayApart(s, pid, t, m);
  }

  lemma PostTablesIgnoreProcs(s: State, t: State)
    requires PostTables(s) && t == s.(procs := t.procs)
    ensures PostTables(t)
  {
  }

  lemma PostersStayApart(s: State, pid: Pid, t: State, m: Move)
    requires PostsOk(s) && pid in s.procs && (m.next.Some? ==> MayBecome(s, s.procs[pid], m.next.value))
    requires t.procs == match m.next { case None => s.procs - {pid} case Some(q) => s.procs[pid := q] }
    ensures OnePoster(t)
  {
    hide PostTables;
    forall q | q in s.procs && PostOf(s.procs[q]).Some? ensures PostOf(s.procs[q]).value in s.provisions {
      assert ProcPosted(s, s.procs[q]);
    }
  }

  lemma BeginKeepsPosted(s: State, pid: Pid, r: Request)
    requires PostsOk(s)
    ensures PostsOk(BeginStep(s, pid, r))
  {
    var t := BeginStep(s, pid, r);
    if t != s {
      hide FirstMove, ProcPosted;
      FirstIsPosted(s, r);
      PostTablesIgnoreProcs(s, t);
      forall q <- t.procs ensures ProcPosted(t, t.procs[q]) {
        ProcPostedIgnoresProcs(s, t, t.procs[q]);
      }
    }
  }

  lemma FirstIsPosted(s: State, r: Request)
    ensures FirstMove(s, r).Some? ==> ProcPosted(s, FirstMove(s, r).value) && PostOf(FirstMove(s, r).value).None?
  {
  }

  lemma CrashKeepsPosted(s: State, pid: Pid)
    requires PostsOk(s)
    ensures PostsOk(Exit(s, pid))
  {
    hide ProcPosted;
    var t := Exit(s, pid);
    PostTablesIgnoreProcs(s, t);
    forall q <- t.procs ensures ProcPosted(t, t.procs[q]) {
      ProcPostedIgnoresProcs(s, t, s.procs[q]);
    }
  }

  /** Labs and the enrollment transactions. */
  ghost predicate OnlyLabsMoves(s: State, t: State) {
    && t.procs == s.procs && t.provisions == s.provisions
    && (forall l :: Closed(s, l) ==> Closed(t, l)) && (forall l :: Gone(s, l) ==> Gone(t, l))
    && t.workspaces.Keys == s.workspaces.Keys
    && forall w <- s.workspaces :: t.workspaces[w].labId == s.workspaces[w].labId
  }

  lemma OutsideIsLabs(s: State, a: Action)
    requires !a.Begin? && !a.Advance? && !a.Crash?
    ensures OnlyLabsMoves(s, Step(s, a))
  {
    hide RestartTx;
    if a.Restart? {
      RestartSparesLabs(s, a.e, a.w);
    }
  }

  lemma LabsKeepPosted(s: State, t: State)
    requires PostsOk(s) && OnlyLabsMoves(s, t)
    ensures PostsOk(t)
  {
    hide Closed, Gone;
    forall pid <- t.procs ensures ProcPosted(t, t.procs[pid]) {
      assert ProcPosted(s, s.procs[pid]);
    }
  }

  lemma StepKeepsPosted(s: State, a: Action)
    requires Basic(s) && PostsOk(s) && Careful(s, a)
    ensures PostsOk(Step(s, a))
  {
    hide Basic, PostsOk, Careful, MoveOf, BeginStep, RestartTx, Land, Apply;
    if a.Begin? {
      BeginKeepsPosted(s, a.pid, a.request);
    } else if a.Crash? {
      CrashKeepsPosted(s, a.pid);
    } else if a.Advance? {
      if a.pid in s.procs {
        CarefulMove(s, a.pid, a.ok, a.w);
        LandKeepsPosted(s, a.pid, MoveOf(s, s.procs[a.pid], a.ok, a.w));
      }
    } else {
      OutsideIsLabs(s, a);
      LabsKeepPosted(s, Step(s, a));
    }
  }

  // ----- fenced steps -----

  /** What may be written without losing a VM. */
  predicate VmFine(s: State, x: Write) {
    match x
    case PutRow(w, row) =>
      (row.status == Creating || row.status == Error) && row.labId.Some? ==> row.labId.value !in s.live
    case _ => true
  }

  lemma NameIsFree(s: State, l: LabId)
    requires TablesBasic(s) && VmsOk(s) && Awaits(s, l.workspace, l.generation) && l !in s.provisions
    ensures l !in s.live && !Holds(s, l.workspace, l)
  {
    hide TablesBasic;
    HoldersAreOlder(s, l, l.workspace);
  }

  lemma WriteKeepsVms(s: State, p: Proc, x: Write)
    requires TablesBasic(s) && PostTables(s) && VmsOk(s) && Fine(s, x) && PostFine(s, p, x) && VmFine(s, x)
    ensures VmsOk(Apply(s, x))
  {
    match x
    case PutRow(_, _) => RowWriteKeepsVms(s, p, x);
    case NewRow(_, _) => RowWriteKeepsVms(s, p, x);
    case DropRow(_) => RowWriteKeepsVms(s, p, x);
    case AttachVm(l, _) => AttachKeepsVms(s, p, x);
    case Reserve(l, _) => hide TablesBasic, NoVmLost; NameIsFree(s, l); ReserveKeepsVms(s, l, x.eg);
    case _ => hide TablesBasic, Fine;
  }

  lemma ReserveKeepsVms(s: State, l: LabId, eg: nat)
    requires VmsOk(s) && l !in s.live
    ensures VmsOk(Apply(s, Reserve(l, eg)))
  {
  }

  lemma RowWriteKeepsVms(s: State, p: Proc, x: Write)
    requires TablesBasic(s) && VmsOk(s) && Fine(s, x) && PostFine(s, p, x) && VmFine(s, x)
    requires x.PutRow? || x.NewRow? || x.DropRow?
    ensures VmsOk(Apply(s, x))
  {
    hide NamesOk, RowsApart;
    if x.w in s.workspaces {
      RowIsBasic(s, x.w);
    }
  }

  lemma AttachKeepsVms(s: State, p: Proc, x: Write)
    requires TablesBasic(s) && PostTables(s) && VmsOk(s) && Fine(s, x) && PostFine(s, p, x) && x.AttachVm?
    ensures VmsOk(Apply(s, x))
  {
    hide NamesOk, RowsApart;
    RowIsBasic(s, x.l.workspace);
  }

  lemma MoveIsSafe(s: State, pid: Pid, ok: bool, w: Option<WorkspaceId>)
    requires TablesBasic(s) && VmsOk(s) && pid in s.procs && !DeclaresLiveMissing(s, Advance(pid, ok, w))
    ensures VmFine(s, MoveOf(s, s.procs[pid], ok, w).write)
  {
    hide NamesOk, RowsApart, Finds, Current, NoVmLost, RowBasic;
  }

  lemma VmsIgnoreProcs(s: State, t: State)
    requires VmsOk(s) && t == s.(procs := t.procs)
    ensures VmsOk(t)
  {
  }

  lemma OutsideKeepsVms(s: State, a: Action)
    requires TablesBasic(s) && PostTables(s) && VmsOk(s) && !a.Begin? && !a.Advance? && !a.Crash?
    ensures VmsOk(Step(s, a))
  {
    hide RestartTx, NamesOk, RowsApart, RowBasic;
    if a.Restart? {
      RestartSparesLabs(s, a.e, a.w);
    }
  }

  lemma StepKeepsVms(s: State, a: Action)
    requires Inv(s) && Fenced(s, a)
    ensures VmsOk(Step(s, a))
  {
    hide TablesBasic, ProcBasic, PostTables, OnePoster, ProcPosted, VmsOk, MoveOf, Careful, DeclaresLiveMissing, RestartTx;
    if a.Begin? || a.Crash? {
      hide BeginStep;
      VmsIgnoreProcs(s, Step(s, a)) by { BeginMovesProcs(s, a); }
    } else if a.Advance? {
      if a.pid in s.procs {
        var m := MoveOf(s, s.procs[a.pid], a.ok, a.w);
        hide Fine, PostFine, VmFine, Apply;
        CarefulMove(s, a.pid, a.ok, a.w);
        MoveIsSafe(s, a.pid, a.ok, a.w);
        WriteKeepsVms(s, s.procs[a.pid], m.write);
        VmsIgnoreProcs(Apply(s, m.write), Step(s, a));
      }
    } else {
      OutsideKeepsVms(s, a);
    }
  }

  lemma BeginMovesProcs(s: State, a: Action)
    requires a.Begin? || a.Crash?
    ensures Step(s, a) == s.(procs := Step(s, a).procs)
  {
    hide FirstMove;
  }

  /** The inductive step: whatever a fenced action does, the invariant survives. */
  lemma StepKeepsInv(s: State, a: Action)
    requires Inv(s) && Fenced(s, a)
    ensures Inv(Step(s, a))
  {
    hide Basic, PostsOk, VmsOk, Step;
    StepKeepsBasic(s, a);
    StepKeepsPosted(s, a);
    StepKeepsVms(s, a);
  }

  /** Run induction: every state of a fenced run is in order. */
  lemma {:induction false} RunKeepsInv(s: State, run: seq<Action>)
    requires Inv(s) && FencedRun(s, run)
    ensures Inv(Run(s, run))
    decreases |run|
  {
    hide Inv, Step, Fenced;
    if run != [] {
      StepKeepsInv(s, run[0]);
      RunKeepsInv(Step(s, run[0]), run[1..]);
    }
  }

  lemma {:induction false} CarefulRunKeepsPosted(s: State, run: seq<Action>)
    requires Basic(s) && PostsOk(s) && CarefulRun(s, run)
    ensures Basic(Run(s, run)) && PostsOk(Run(s, run))
    decreases |run|
  {
    hide Basic, PostsOk, Step, Careful;
    if run != [] {
      StepKeepsBasic(s, run[0]);
      StepKeepsPosted(s, run[0]);
      CarefulRunKeepsPosted(Step(s, run[0]), run[1..]);
    }
  }

  lemma InitialInv()
    ensures Inv(INITIAL)
  {
  }

  // ----- main results -----

  /** No VM is ever lost: in every state of every fenced run, a VM that is alive, or
      whose POST may still create it, has a provision row or belongs to a workspace. */
  lemma NoVmIsEverLost(run: seq<Action>)
    requires FencedRun(INITIAL, run)
    ensures NoVmLost(Run(INITIAL, run))
  {
    hide Run, Basic, PostsOk;
    InitialInv();
    RunKeepsInv(INITIAL, run);
  }

  /** A provision row that leaves was settled, its POST answered, and either its VM was
      attached by that very step or the row was claimed and the VM is gone. */
  predicate LeavesSettled(s: State, a: Action, l: LabId) {
    l in s.provisions && l !in Step(s, a).provisions ==>
      && s.provisions[l].settled && Closed(s, l)
      && (if s.provisions[l].claimed then Gone(s, l) else Holds(Step(s, a), l.workspace, l))
  }

  /** A provision row disappears only when its POST has been answered, in all runs that
      reserve old names carefully; what is declared missing does not matter here. */
  lemma RowsLeaveOnlyWhenSettled(run: seq<Action>, a: Action, l: LabId)
    requires CarefulRun(INITIAL, run) && Careful(Run(INITIAL, run), a)
    ensures LeavesSettled(Run(INITIAL, run), a, l)
  {
    hide Run, Basic, PostsOk, LeavesSettled;
    InitialInv();
    CarefulRunKeepsPosted(INITIAL, run);
    RowLeaves(Run(INITIAL, run), a, l);
  }

  lemma RowLeaves(s: State, a: Action, l: LabId)
    requires Basic(s) && PostsOk(s) && Careful(s, a)
    ensures LeavesSettled(s, a, l)
  {
    hide TablesBasic, ProcBasic, PostTables, OnePoster, ProcPosted, MoveOf, Careful, RestartTx, FirstMove, Closed, Gone, Holds;
    if a.Advance? && a.pid in s.procs {
      hide Fine, PostFine, Apply;
      var x := MoveOf(s, s.procs[a.pid], a.ok, a.w).write;
      CarefulMove(s, a.pid, a.ok, a.w);
      LandSparesTables(Apply(s, x), a.pid, MoveOf(s, s.procs[a.pid], a.ok, a.w).next, l);
      if l in s.provisions && l !in Apply(s, x).provisions {
        WriteLeaves(s, s.procs[a.pid], x, l);
      }
    } else if a.Restart? {
      RestartSparesLabs(s, a.e, a.w);
    }
  }

  lemma LandSparesTables(s: State, pid: Pid, next: Option<Proc>, l: LabId)
    ensures var t := Land(s, pid, next);
            t.provisions == s.provisions && (Holds(t, l.workspace, l) <==> Holds(s, l.workspace, l))
  {
  }

  lemma WriteLeaves(s: State, p: Proc, x: Write, l: LabId)
    requires Fine(s, x) && PostFine(s, p, x) && l in s.provisions && l !in Apply(s, x).provisions
    ensures s.provisions[l].settled && Closed(s, l)
    ensures if s.provisions[l].claimed then Gone(s, l) else Holds(Apply(s, x), l.workspace, l)
  {
  }
}
