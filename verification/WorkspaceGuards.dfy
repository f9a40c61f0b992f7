/** Three conditions that an update can put into its own `where` clause.  With them no name is
    ever reserved twice and no live VM is declared missing, so every run is `Strict` and
    nothing is left to assume. */
module WorkspaceGuards {
  import opened Options
  import opened Workspace
  import opened WorkspaceRuns
  import opened WorkspaceSafety
  import opened WorkspacePaths
  import opened WorkspaceDeletions

  /** Conditions on the row an update is about to change or has just re-read: it still
      carries the VM Labs was asked about, and a request goes on only under the provision
      generation that its own update wrote. */
  predicate Guarded(s: State, a: Action) {
    a.Advance? && a.pid in s.procs ==>
      match s.procs[a.pid]
      case MarkMissing(w, l) => HasStatus(s, w, Running) ==> Holds(s, w, l)
      case Rebuild(w, l, _) => HasStatus(s, w, Stopped) ==> Holds(s, w, l)
      case Reread(w, _, wrote) => HasStatus(s, w, Creating) ==> s.workspaces[w].generation == wrote
      case _ => true
  }

  predicate GuardedRun(s: State, run: seq<Action>)
    decreases |run|
  {
    run != [] ==> Guarded(s, run[0]) && GuardedRun(Step(s, run[0]), run[1..])
  }

  /** The name a request may still reserve. */
  function Ticket(p: Proc): Option<LabId> {
    match p
    case Schedule(w, _, g, _) => Some(LabId(w, g))
    case Reread(w, _, wrote) => Some(LabId(w, wrote))
    case _ => None
  }

  ghost predicate TicketOk(s: State, l: LabId) {
    && l !in s.reservedFor && l.workspace in s.usedIds
    && (l.workspace in s.workspaces ==> l.generation <= s.workspaces[l.workspace].generation)
  }

  /** What a request learned about the VM it asked Labs about. */
  ghost predicate SightOk(s: State, p: Proc) {
    match p
    case StopVm(_, l) => Closed(s, l)
    case StartVm(_, l, _) => Closed(s, l)
    case MarkMissing(_, l) => Gone(s, l)
    case Rebuild(_, l, _) => Gone(s, l)
    case _ => true
  }

  ghost predicate TicketsOk(s: State) {
    && (forall pid <- s.procs :: Ticket(s.procs[pid]).Some? ==> TicketOk(s, Ticket(s.procs[pid]).value))
    && (forall p <- s.procs, q <- s.procs ::
          Ticket(s.procs[p]).Some? && Ticket(s.procs[p]) == Ticket(s.procs[q]) ==> p == q)
  }

  ghost predicate SightsOk(s: State) {
    forall pid <- s.procs :: SightOk(s, s.procs[pid])
  }

  ghost predicate GuardedInv(s: State) {
    Basic(s) && PostsOk(s) && TicketsOk(s) && SightsOk(s)
  }

  // ----- guarded steps are strict -----

  /** With the guards, the two hypotheses about races become theorems. */
  lemma GuardedIsStrict(s: State, a: Action)
    requires TicketsOk(s) && SightsOk(s) && Guarded(s, a)
    ensures Strict(s, a)
  {
    if a.Advance? && a.pid in s.procs {
      hide MoveOf;
      OnlyScheduleReserves(s, s.procs[a.pid], a.ok, a.w);
      assert SightOk(s, s.procs[a.pid]);
    }
  }

  lemma ReservedHasPost(s: State, l: LabId)
    requires Basic(s)
    ensures l in s.posts <==> l in s.reservedFor
  {
  }

  /** What strict steps never take back. */
  lemma StrictLasts(s: State, a: Action, l: LabId)
    requires Basic(s) && PostsOk(s) && Strict(s, a)
    ensures Closed(s, l) ==> Closed(Step(s, a), l)
    ensures Gone(s, l) ==> Gone(Step(s, a), l)
  {
    hide Basic, PostsOk, MoveOf, RestartTx, FirstMove, DeclaresLiveMissing;
    if a.Advance? && a.pid in s.procs {
      hide Fine, PostFine, Apply;
      var x := MoveOf(s, s.procs[a.pid], a.ok, a.w).write;
      CarefulMove(s, a.pid, a.ok, a.w);
      ReservedHasPost(s, l);
      if !(x.Reserve? && x.l == l) {
        WriteLasts(s, s.procs[a.pid], x, l);
      }
    } else if !a.Begin? && !a.Crash? && !a.Advance? {
      OutsideIsLabs(s, a);
    }
  }

  // ----- where tickets and answers come from -----

  /** A ticket for a provision generation that the row never had before. */
  ghost predicate NewTicket(s: State, x: Write, l: LabId) {
    match x
    case PutRow(w, row) =>
      w == l.workspace && w in s.workspaces && row.generation == l.generation && l.generation > s.workspaces[w].generation
    case NewRow(w, row) => w == l.workspace && w !in s.usedIds && row.generation == l.generation
    case _ => false
  }

  lemma TicketComesFrom(s: State, a: Action)
    requires a.Advance? && a.pid in s.procs && Guarded(s, a)
    ensures var p := s.procs[a.pid]; var m := MoveOf(s, p, a.ok, a.w);
            m.next.Some? && Ticket(m.next.value).Some? ==>
              (Ticket(p) == Ticket(m.next.value) && !m.write.Reserve?) || NewTicket(s, m.write, Ticket(m.next.value).value)
  {
    hide Finds, Current;
  }

  lemma SightComesFrom(s: State, p: Proc, ok: bool, w: Option<WorkspaceId>)
    requires PostTables(s) && SightOk(s, p)
    ensures var m := MoveOf(s, p, ok, w);
            m.next.Some? && Sights(m.next.value) ==> m.write == NoWrite && SightOk(s, m.next.value)
  {
    hide Current, Awaits;
  }

  /** The control points that rely on an answer of Labs. */
  predicate Sights(p: Proc) {
    p.StopVm? || p.StartVm? || p.MarkMissing? || p.Rebuild?
  }

  lemma FirstIsGuarded(s: State, r: Request)
    requires PostTables(s)
    ensures FirstMove(s, r).Some? ==> Ticket(FirstMove(s, r).value).None? && SightOk(s, FirstMove(s, r).value)
  {
  }

  lemma Sightless(s: State, p: Proc)
    requires !Sights(p)
    ensures SightOk(s, p)
  {
  }

  // ----- sights -----

  lemma SightLasts(s: State, a: Action, p: Proc)
    requires Basic(s) && PostsOk(s) && Strict(s, a) && SightOk(s, p)
    ensures SightOk(Step(s, a), p)
  {
    hide Step, Basic, PostsOk, Strict, Closed, Gone;
    if Sights(p) {
      StrictLasts(s, a, p.l);
    }
  }

  lemma AdvanceKeepsSight(s: State, a: Action)
    requires GuardedInv(s) && Strict(s, a) && a.Advance? && a.pid in s.procs && a.pid in Step(s, a).procs
    ensures SightOk(Step(s, a), Step(s, a).procs[a.pid])
  {
    hide Basic, OnePoster, MoveOf, Strict, SightOk, ProcPosted;
    var m := MoveOf(s, s.procs[a.pid], a.ok, a.w);
    assert SightOk(s, s.procs[a.pid]);
    ApplyKeepsProcs(s, m.write);
    hide Apply;
    SightComesFrom(s, s.procs[a.pid], a.ok, a.w);
    var q := m.next.value;
    if Sights(q) {
      hide PostTables;
      SightLasts(s, a, q);
    } else {
      Sightless(Step(s, a), q);
    }
  }

  lemma GuardedStepKeepsSights(s: State, a: Action)
    requires GuardedInv(s) && Strict(s, a)
    ensures SightsOk(Step(s, a))
  {
    hide Basic, OnePoster, MoveOf, Strict, SightOk, ProcPosted, FirstMove, RestartTx;
    var t := Step(s, a);
    if a.Begin? {
      FirstIsGuarded(s, a.request);
    } else if a.Restart? {
      RestartSparesLabs(s, a.e, a.w);
    }
    forall q <- t.procs ensures SightOk(t, t.procs[q]) {
      if a.Advance? && a.pid == q && q in s.procs {
        AdvanceKeepsSight(s, a);
      } else {
        OthersStay(s, a, q);
        SightLasts(s, a, t.procs[q]);
      }
    }
  }

  /** Processes that do not move keep their control points; new ones start. */
  lemma OthersStay(s: State, a: Action, q: Pid)
    requires q in Step(s, a).procs && !(a.Advance? && a.pid == q && q in s.procs)
    ensures (q in s.procs && Step(s, a).procs[q] == s.procs[q])
            || (a.Begin? && a.pid == q && FirstMove(s, a.request) == Some(Step(s, a).procs[q]))
  {
    hide MoveOf, FirstMove, RestartTx;
    if a.Advance? && a.pid in s.procs {
      ApplyKeepsProcs(s, MoveOf(s, s.procs[a.pid], a.ok, a.w).write);
    } else if a.Restart? {
      RestartSparesLabs(s, a.e, a.w);
    }
  }

  // ----- tickets -----

  /** Where the ticket of `q` after a step comes from. */
  lemma TicketOrigin(s: State, a: Action, q: Pid)
    requires GuardedInv(s) && Guarded(s, a) && q in Step(s, a).procs && Ticket(Step(s, a).procs[q]).Some?
    ensures var l := Ticket(Step(s, a).procs[q]).value;
            || (q in s.procs && Ticket(s.procs[q]) == Some(l) && NameReserved(s, a) != Some(l))
            || (a.Advance? && a.pid == q && q in s.procs && NewTicket(s, MoveOf(s, s.procs[q], a.ok, a.w).write, l))
  {
    hide Basic, MoveOf, SightOk, FirstMove, OnePoster, ProcPosted, RestartTx, NewTicket, Guarded;
    var t := Step(s, a);
    if a.Advance? && a.pid == q && q in s.procs {
      TicketComesFrom(s, a);
      ApplyKeepsProcs(s, MoveOf(s, s.procs[q], a.ok, a.w).write);
    } else {
      OthersStay(s, a, q);
      if a.Begin? {
        FirstIsGuarded(s, a.request);
      } else if NameReserved(s, a).Some? {
        OnlyScheduleReserves(s, s.procs[a.pid], a.ok, a.w);
      }
    }
  }

  lemma NewIsFree(s: State, x: Write, l: LabId)
    requires Basic(s) && NewTicket(s, x, l)
    ensures l !in s.reservedFor
  {
    hide RowBasic, ProcBasic;
  }

  lemma NewIsOk(s: State, x: Write, l: LabId)
    requires Basic(s) && Fine(s, x) && NewTicket(s, x, l)
    ensures TicketOk(Apply(s, x), l)
  {
    hide ProcBasic, RowsApart;
    if l.workspace in s.workspaces {
      RowIsBasic(s, l.workspace);
    }
    NewIsFree(s, x, l);
  }

  lemma NewIsNew(s: State, x: Write, l: LabId, q: Pid)
    requires TicketsOk(s) && NewTicket(s, x, l) && q in s.procs
    ensures Ticket(s.procs[q]) != Some(l)
  {
  }

  lemma ReservedBefore(s: State, a: Action, l: LabId)
    requires Basic(s) && l in Step(s, a).reservedFor
    ensures l in s.reservedFor || NameReserved(s, a) == Some(l)
  {
    hide Basic, MoveOf, FirstMove, RestartTx;
    if a.Advance? && a.pid in s.procs {
      hide Fine;
      MoveWrites(s, MoveOf(s, s.procs[a.pid], a.ok, a.w).write, l);
    } else if a.Restart? {
      RestartSparesLabs(s, a.e, a.w);
    }
  }

  lemma MoveWrites(s: State, x: Write, l: LabId)
    ensures l in Apply(s, x).reservedFor <==> l in s.reservedFor || (x.Reserve? && x.l == l)
  {
  }

  lemma TicketStaysOk(s: State, a: Action, q: Pid)
    requires GuardedInv(s) && Guarded(s, a) && q in Step(s, a).procs && Ticket(Step(s, a).procs[q]).Some?
    ensures TicketOk(Step(s, a), Ticket(Step(s, a).procs[q]).value)
  {
    hide TablesBasic, ProcBasic, PostsOk, MoveOf, SightOk, NewTicket, NameReserved, Guarded, FirstMove, RestartTx;
    var t, l := Step(s, a), Ticket(Step(s, a).procs[q]).value;
    TicketOrigin(s, a, q);
    StepKeepsBasic(s, a);
    if q in s.procs && Ticket(s.procs[q]) == Some(l) && NameReserved(s, a) != Some(l) {
      hide Step;
      if l in t.reservedFor {
        ReservedBefore(s, a, l);
      }
    } else {
      var m := MoveOf(s, s.procs[q], a.ok, a.w);
      assert ProcBasic(s, s.procs[q]);
      MoveIsFine(s, s.procs[q], a.ok, a.w);
      NewIsOk(s, m.write, l);
    }
  }

  lemma TicketsStayApart(s: State, a: Action, p: Pid, q: Pid)
    requires GuardedInv(s) && Guarded(s, a) && p in Step(s, a).procs && q in Step(s, a).procs
    requires Ticket(Step(s, a).procs[p]).Some? && Ticket(Step(s, a).procs[p]) == Ticket(Step(s, a).procs[q])
    ensures p == q
  {
    hide Basic, PostsOk, SightsOk, Guarded, TicketOk, NewTicket, Step, NameReserved, MoveOf;
    var l := Ticket(Step(s, a).procs[p]).value;
    TicketOrigin(s, a, p);
    TicketOrigin(s, a, q);
    if a.Advance? && a.pid in s.procs && NewTicket(s, MoveOf(s, s.procs[a.pid], a.ok, a.w).write, l) {
      var x := MoveOf(s, s.procs[a.pid], a.ok, a.w).write;
      if p in s.procs { NewIsNew(s, x, l, p); }
      if q in s.procs { NewIsNew(s, x, l, q); }
    }
  }

  lemma GuardedStepKeepsTickets(s: State, a: Action)
    requires GuardedInv(s) && Guarded(s, a)
    ensures TicketsOk(Step(s, a))
  {
    hide GuardedInv, Step, TicketOk, Guarded;
    var t := Step(s, a);
    forall q <- t.procs | Ticket(t.procs[q]).Some? ensures TicketOk(t, Ticket(t.procs[q]).value) {
      TicketStaysOk(s, a, q);
    }
    forall p <- t.procs, q <- t.procs | Ticket(t.procs[p]).Some? && Ticket(t.procs[p]) == Ticket(t.procs[q])
      ensures p == q
    {
      TicketsStayApart(s, a, p, q);
    }
  }

  // ----- runs -----

  lemma GuardedStepKeepsInv(s: State, a: Action)
    requires GuardedInv(s) && Guarded(s, a)
    ensures GuardedInv(Step(s, a)) && Strict(s, a)
  {
    GuardedIsStrict(s, a);
    hide Basic, PostsOk, Step, TicketsOk, SightsOk, Guarded, DeclaresLiveMissing;
    StepKeepsBasic(s, a);
    StepKeepsPosted(s, a);
    GuardedStepKeepsSights(s, a);
    GuardedStepKeepsTickets(s, a);
  }

  lemma {:induction false} GuardedRunIsStrict(s: State, run: seq<Action>)
    requires GuardedInv(s) && GuardedRun(s, run)
    ensures StrictRun(s, run) && GuardedInv(Run(s, run))
    decreases |run|
  {
    hide GuardedInv, Guarded, Step, Strict;
    if run != [] {
      GuardedStepKeepsInv(s, run[0]);
      GuardedRunIsStrict(Step(s, run[0]), run[1..]);
    }
  }

  lemma InitialIsGuarded()
    ensures GuardedInv(INITIAL)
  {
    InitialInv();
  }

  /** With the three guards no name is ever reserved twice, no VM is lost, no provision row
      leaves unsettled and no VM in use is deleted: every run obeys all the hypotheses. */
  lemma GuardsSuffice(run: seq<Action>, a: Action)
    requires GuardedRun(INITIAL, run)
    ensures StrictRun(INITIAL, run) && FencedRun(INITIAL, run) && CarefulRun(INITIAL, run) && SparingRun(INITIAL, run)
    ensures NoVmLost(Run(INITIAL, run)) && SparesInUse(Run(INITIAL, run), a)
    ensures Guarded(Run(INITIAL, run), a) ==> forall l :: LeavesSettled(Run(INITIAL, run), a, l)
  {
    hide NoVmLost, SparesInUse, Fenced, Careful, Sparing, Step, Run, LeavesSettled, GuardedInv, Strict, Guarded;
    InitialIsGuarded();
    GuardedRunIsStrict(INITIAL, run);
    StrictIsFenced(INITIAL, run);
    StrictIsSparing(INITIAL, run);
    NoVmIsEverLost(run);
    DeletesSpareWorkspacesInUse(run, a);
    if Guarded(Run(INITIAL, run), a) {
      GuardedIsCareful(Run(INITIAL, run), a);
      forall l ensures LeavesSettled(Run(INITIAL, run), a, l) {
        RowsLeaveOnlyWhenSettled(run, a, l);
      }
    }
  }

  lemma GuardedIsCareful(s: State, a: Action)
    requires GuardedInv(s) && Guarded(s, a)
    ensures Careful(s, a)
  {
    GuardedIsStrict(s, a);
  }
}
