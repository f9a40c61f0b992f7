/** The editor's save queue: at most one save at a time, always of the latest revision.
    The closure's variables are the fields; timers, the answer of a save and the caller
    may come in any order, each as one method call.  `log` records what was observable. */
module Autosave {
  import opened Options

  datatype Candidate<T> = Blocked(revision: int) | Ready(revision: int, value: T)

  /** `Rejected` is an error that carries validation errors; `Failed` is any other. */
  datatype Result = Ok | Rejected | Failed

  datatype Status = IsBlocked | IsDirty | IsSaving | IsSaved | HasFailed

  datatype Event<T> =
    | Staged(candidate: Candidate<T>)
    | Sent(revision: int, value: T)
    | Returned(revision: int, result: Result)
    | Notified(status: Status, revision: int)

  // ----- what the log promises -----

  /** Sent revisions never decrease. */
  ghost predicate Ascending<T(!new)>(log: seq<Event<T>>) {
    forall i, j | 0 <= i < j < |log| && log[i].Sent? && log[j].Sent? :: log[i].revision <= log[j].revision
  }

  /** A revision the server accepted or rejected is never sent again. */
  ghost predicate NeverAgain<T(!new)>(log: seq<Event<T>>) {
    forall i, j | 0 <= i < j < |log| && log[i].Returned? && log[i].result != Failed && log[j].Sent? ::
      log[j].revision > log[i].revision
  }

  ghost predicate NotNewer<T(!new)>(c: Candidate<T>, revision: int) {
    c.revision <= revision && (c.revision == revision ==> c.Ready?)
  }

  /** What is sent was staged as ready, and no newer candidate stood before it. */
  ghost predicate SentIsLatest<T(!new)>(log: seq<Event<T>>) {
    forall j | 0 <= j < |log| && log[j].Sent? ::
      && Staged(Ready(log[j].revision, log[j].value)) in log[..j]
      && forall i | 0 <= i < j && log[i].Staged? :: NotNewer(log[i].candidate, log[j].revision)
  }

  /** Success and failure are reported for the latest staged revision only. */
  ghost predicate VerdictIsLatest<T(!new)>(log: seq<Event<T>>) {
    forall i, j | 0 <= i < j < |log| && log[i].Staged? && log[j].Notified? && log[j].status in {IsSaved, HasFailed} ::
      log[i].candidate.revision <= log[j].revision
  }

  /** Saves that have not returned yet. */
  ghost function InFlight<T(!new)>(log: seq<Event<T>>): int {
    if log == [] then 0
    else
      var last := log[|log| - 1];
      InFlight(log[..|log| - 1]) + if last.Sent? then 1 else if last.Returned? then -1 else 0
  }

  ghost function LastNotice<T(!new)>(log: seq<Event<T>>): Option<(Status, int)> {
    if log == [] then None
    else
      var last := log[|log| - 1];
      if last.Notified? then Some((last.status, last.revision)) else LastNotice(log[..|log| - 1])
  }

  /** Everything the log promises. */
  ghost predicate Promises<T(!new)>(log: seq<Event<T>>) {
    Ascending(log) && NeverAgain(log) && SentIsLatest(log) && VerdictIsLatest(log) && 0 <= InFlight(log) <= 1
  }

  // ----- how the log relates to the state -----

  ghost predicate UpTo<T(!new)>(c: Candidate<T>, latest: Candidate<T>) {
    c.revision <= latest.revision && (c.revision == latest.revision ==> c == latest)
  }

  ghost predicate Bounded<T(!new)>(log: seq<Event<T>>, latest: Option<Candidate<T>>) {
    forall i | 0 <= i < |log| ::
      && (log[i].Staged? || log[i].Sent? || log[i].Returned? ==> latest.Some?)
      && (log[i].Staged? ==> UpTo(log[i].candidate, latest.value))
      && (log[i].Sent? ==> log[i].revision <= latest.value.revision)
      && (log[i].Returned? ==> log[i].revision <= latest.value.revision)
  }

  /** Answers about the latest revision are remembered. */
  ghost predicate Remembered<T(!new)>(log: seq<Event<T>>, latest: Option<Candidate<T>>, saved: int, rejected: Option<int>) {
    forall i | 0 <= i < |log| && log[i].Returned? && latest.Some? && log[i].revision == latest.value.revision ::
      && (log[i].result == Ok ==> saved == log[i].revision)
      && (log[i].result == Rejected ==> rejected == Some(log[i].revision))
  }

  // ----- the queue -----

  datatype Queue<T> = Queue(
    latest: Option<Candidate<T>>,
    saved: int,
    rejected: Option<int>,
    disposed: bool,
    timer: bool,
    // the candidate of the running save
    sent: Option<Candidate<T>>,
    log: seq<Event<T>>)

  function Start<T>(): Queue<T> {
    Queue(None, 0, None, false, false, None, [])
  }

  predicate Accepts<T>(q: Queue<T>, c: Candidate<T>) {
    !q.disposed && (q.latest.None? || c.revision > q.latest.value.revision)
  }

  function StageStep<T>(q: Queue<T>, c: Candidate<T>): Queue<T> {
    if !Accepts(q, c) then q
    else
      var status := if c.Blocked? then IsBlocked else IsDirty;
      q.(latest := Some(c), timer := c.Ready? && q.sent.None?, log := q.log + [Staged(c)] + [Notified(status, c.revision)])
  }

  predicate MaySend<T>(q: Queue<T>) {
    && q.sent.None? && !q.disposed && q.latest.Some? && q.latest.value.Ready?
    && q.latest.value.revision != q.saved && q.rejected != Some(q.latest.value.revision)
  }

  function FlushStep<T>(q: Queue<T>): Queue<T> {
    if !MaySend(q) then q.(timer := false)
    else
      var c := q.latest.value;
      q.(timer := false, sent := Some(c), log := q.log + [Notified(IsSaving, c.revision)] + [Sent(c.revision, c.value)])
  }

  /** The answer is recorded; a verdict on the latest candidate is reported, and otherwise
      a newer one is sent at once. */
  function ReturnStep<T>(q: Queue<T>, result: Result): Queue<T>
    requires q.sent.Some? && q.latest.Some?
  {
    var r := q.sent.value.revision;
    var q1 := Answered(q, result);
    if q.disposed then q1
    else if q.latest.value.revision != r then if q.latest.value.Ready? then FlushStep(q1) else q1
    else Verdict(q1, r, result)
  }

  function Answered<T>(q: Queue<T>, result: Result): Queue<T>
    requires q.sent.Some?
  {
    var r := q.sent.value.revision;
    q.(sent := None, log := q.log + [Returned(r, result)], saved := if !q.disposed && result == Ok then r else q.saved)
  }

  function Verdict<T>(q: Queue<T>, r: int, result: Result): Queue<T> {
    q.(rejected := if result == Rejected then Some(r) else q.rejected,
       log := q.log + [Notified(if result == Ok then IsSaved else HasFailed, r)])
  }

  datatype Input<T> = Stage(candidate: Candidate<T>) | Retry | TimerFires | SaveReturns(result: Result) | Dispose

  function Step<T>(q: Queue<T>, i: Input<T>): Queue<T> {
    match i
    case Stage(c) => StageStep(q, c)
    case Retry => FlushStep(q)
    case TimerFires => if q.timer then FlushStep(q) else q
    case SaveReturns(result) => if q.sent.Some? && q.latest.Some? then ReturnStep(q, result) else q
    case Dispose => q.(disposed := true, timer := false)
  }

  function Run<T>(q: Queue<T>, inputs: seq<Input<T>>): Queue<T>
    decreases |inputs|
  {
    if inputs == [] then q else Run(Step(q, inputs[0]), inputs[1..])
  }

  /** The closure as an object: each call updates its variables in place. */
  class Saver<T(!new)> {
    var latest: Option<Candidate<T>>
    var saved: int
    var rejected: Option<int>
    var running: bool
    var disposed: bool
    var timer: bool
    var sent: Option<Candidate<T>>
    ghost var log: seq<Event<T>>

    ghost predicate Valid()
      reads this
    {
      running <==> sent.Some?
    }

    ghost function Q(): Queue<T>
      reads this
    {
      Queue(latest, saved, rejected, disposed, timer, sent, log)
    }

    constructor ()
      ensures Valid() && Q() == Start()
    {
      latest, saved, rejected, running, disposed, timer, sent := None, 0, None, false, false, false, None;
      log := [];
    }

    method Notify(status: Status, revision: int)
      modifies `log
      ensures log == old(log) + [Notified(status, revision)]
    {
      log := log + [Notified(status, revision)];
    }

    method StageCandidate(c: Candidate<T>)
      requires Valid()
      modifies this
      ensures Valid() && Q() == StageStep(old(Q()), c)
    {
      if disposed || (latest.Some? && c.revision <= latest.value.revision) {
        return;
      }
      latest := Some(c);
      timer := false;
      log := log + [Staged(c)];
      Notify(if c.Blocked? then IsBlocked else IsDirty, c.revision);
      if c.Ready? && !running {
        timer := true;
      }
    }

    /** Up to the call of `save`; the caller's retry and the timer both come here. */
    method Flush()
      requires Valid()
      modifies this
      ensures Valid() && Q() == FlushStep(old(Q()))
    {
      timer := false;
      if running || disposed || latest.None? || latest.value.Blocked?
         || latest.value.revision == saved || rejected == Some(latest.value.revision) {
        return;
      }
      running := true;
      sent := latest;
      Notify(IsSaving, sent.value.revision);
      log := log + [Sent(sent.value.revision, sent.value.value)];
    }

    /** After the call of `save`. */
    method Resume(result: Result)
      requires Valid() && running && latest.Some?
      modifies this
      ensures Valid() && Q() == ReturnStep(old(Q()), result)
    {
      var c := sent.value;
      running := false;
      sent := None;
      log := log + [Returned(c.revision, result)];
      if disposed {
        return;
      }
      if result == Ok {
        saved := c.revision;
      }
      if latest.value.revision != c.revision {
        if latest.value.Ready? {
          Flush();
        }
        return;
      }
      if result == Ok {
        Notify(IsSaved, c.revision);
      } else {
        if result == Rejected {
          rejected := Some(c.revision);
        }
        Notify(HasFailed, c.revision);
      }
    }

    method DisposeQueue()
      requires Valid()
      modifies this
      ensures Valid() && Q() == Step(old(Q()), Dispose)
    {
      disposed := true;
      timer := false;
    }
  }

  // ----- the invariant -----

  ghost predicate Consistent<T(!new)>(q: Queue<T>) {
    && Promises(q.log) && Bounded(q.log, q.latest)
    && InFlight(q.log) == (if q.sent.Some? then 1 else 0)
    && (q.timer ==> q.sent.None? && !q.disposed)
    && (q.latest.Some? ==> Staged(q.latest.value) in q.log)
    && Answers(q.log, q.saved)
    && (q.sent.Some? ==> q.sent.value.Ready? && q.latest.Some? && UpTo(q.sent.value, q.latest.value))
    && (!q.disposed ==> Remembered(q.log, q.latest, q.saved, q.rejected) && RunningIsNew(q) && RejectedIsReported(q))
  }

  /** Every revision that was accepted or rejected is older than `revision`. */
  ghost predicate AnsweredBelow<T(!new)>(log: seq<Event<T>>, revision: int) {
    forall i | 0 <= i < |log| && log[i].Returned? && log[i].result != Failed :: log[i].revision < revision
  }

  /** What counts as saved was answered so by the server; only the initial 0 was not. */
  ghost predicate Answers<T(!new)>(log: seq<Event<T>>, saved: int) {
    saved == 0 || Returned(saved, Ok) in log
  }

  ghost predicate RunningIsNew<T(!new)>(q: Queue<T>) {
    q.sent.Some? ==> AnsweredBelow(q.log, q.sent.value.revision)
  }

  ghost predicate RejectedIsReported<T(!new)>(q: Queue<T>) {
    q.rejected.Some? ==>
      && q.latest.Some? && q.rejected.value <= q.latest.value.revision
      && (q.rejected.value == q.latest.value.revision ==>
            q.sent.None? && !q.timer && LastNotice(q.log) == Some((HasFailed, q.rejected.value)))
  }

  /** Nothing is forgotten: the server has confirmed a ready latest revision, or it is about
      to be sent, behind a running save, or reported as failed. */
  ghost predicate Covered<T(!new)>(q: Queue<T>) {
    !q.disposed && q.latest.Some? && q.latest.value.Ready? ==>
      Returned(q.latest.value.revision, Ok) in q.log || q.timer || q.sent.Some?
      || LastNotice(q.log) == Some((HasFailed, q.latest.value.revision))
  }

  /** The one candidate that the initial value of `saved` can be mistaken for. */
  predicate IsZero<T>(c: Candidate<T>) {
    c.Ready? && c.revision == 0
  }

  predicate AtZero<T>(q: Queue<T>) {
    !q.disposed && q.latest.Some? && IsZero(q.latest.value)
  }

  lemma StageKeeps<T(!new)>(q: Queue<T>, c: Candidate<T>)
    requires Consistent(q)
    ensures Consistent(StageStep(q, c)) && (Covered(q) ==> Covered(StageStep(q, c)))
  {
    hide Promises, Bounded, Remembered, InFlight, LastNotice, AnsweredBelow, Answers;
    if Accepts(q, c) {
      StagedKeeps(q.log, q.latest, c);
      RememberNew(q.log, q.latest, c, q.saved, q.rejected);
      var log1 := q.log + [Staged(c)];
      AnswersMore(q.log, q.saved, Staged(c));
      var e := Notified(if c.Blocked? then IsBlocked else IsDirty, c.revision);
      NotifiedKeeps(log1, Some(c), e.status, c.revision);
      RememberMore(log1, Some(c), q.saved, q.rejected, e);
      AnswersMore(log1, q.saved, e);
      if q.sent.Some? && !q.disposed {
        BelowMore(q.log, q.sent.value.revision, Staged(c));
        BelowMore(log1, q.sent.value.revision, e);
      }
    }
  }

  /** A flush covers the latest candidate whatever was pending before. */
  lemma FlushKeeps<T(!new)>(q: Queue<T>)
    requires Consistent(q)
    ensures Consistent(FlushStep(q)) && (AtZero(q) || Covered(FlushStep(q)))
  {
    hide Promises, Bounded, Remembered, InFlight, LastNotice, AnsweredBelow, Answers;
    if MaySend(q) {
      var c := q.latest.value;
      var e := Notified(IsSaving, c.revision);
      var log1 := q.log + [e];
      NotifiedKeeps(q.log, q.latest, IsSaving, c.revision);
      RememberMore(q.log, q.latest, q.saved, q.rejected, e);
      NewToServer(log1, q.latest, q.saved, q.rejected);
      SentKeeps(log1, q.latest);
      RememberMore(log1, q.latest, q.saved, q.rejected, Sent(c.revision, c.value));
      BelowMore(log1, c.revision, Sent(c.revision, c.value));
      AnswersMore(q.log, q.saved, e);
      AnswersMore(log1, q.saved, Sent(c.revision, c.value));
    } else if q.latest.Some? && q.latest.value.revision == q.saved && q.saved != 0 {
      IsAnswered(q.log, q.saved);
    }
  }

  lemma AnswerKeeps<T(!new)>(q: Queue<T>, result: Result)
    requires Consistent(q) && q.sent.Some?
    requires q.disposed || q.latest.value.revision != q.sent.value.revision
    ensures Consistent(Answered(q, result))
  {
    hide Promises, Bounded, Remembered, InFlight, LastNotice, AnsweredBelow, Answers;
    var r := q.sent.value.revision;
    ReturnedKeeps(q.log, q.latest, r, result);
    AnswersReturned(q.log, q.saved, Answered(q, result).saved, r, result);
    if !q.disposed {
      OlderAnswer(q.log, q.latest, q.saved, Answered(q, result).saved, q.rejected, r, result);
    }
  }

  lemma VerdictKeeps<T(!new)>(q: Queue<T>, result: Result)
    requires Consistent(q) && q.sent.Some? && !q.disposed && q.latest.value.revision == q.sent.value.revision
    ensures var q' := Verdict(Answered(q, result), q.sent.value.revision, result); Consistent(q') && Covered(q')
  {
    hide Promises, Bounded, Remembered, InFlight, LastNotice, AnsweredBelow, Answers;
    var r := q.sent.value.revision;
    var q1 := Answered(q, result);
    var q' := Verdict(q1, r, result);
    ReturnedKeeps(q.log, q.latest, r, result);
    LatestAnswer(q.log, q.latest, q.saved, q1.saved, q.rejected, q'.rejected, r, result);
    AnswersReturned(q.log, q.saved, q1.saved, r, result);
    var e := Notified(if result == Ok then IsSaved else HasFailed, r);
    AnswersMore(q1.log, q1.saved, e);
    assert q1.log[|q.log|] == Returned(r, result);
    InMore(q1.log, e, Returned(r, result));
    NotifiedKeeps(q1.log, q.latest, e.status, r);
    RememberMore(q1.log, q.latest, q1.saved, q'.rejected, e);
  }

  lemma ReturnKeeps<T(!new)>(q: Queue<T>, result: Result)
    requires Consistent(q) && q.sent.Some? && q.latest.Some?
    ensures Consistent(ReturnStep(q, result)) && (AtZero(q) || Covered(ReturnStep(q, result)))
  {
    hide Consistent, FlushStep;
    if !q.disposed && q.latest.value.revision == q.sent.value.revision {
      VerdictKeeps(q, result);
    } else {
      AnswerKeeps(q, result);
      FlushKeeps(Answered(q, result));
    }
  }

  lemma StepKeeps<T(!new)>(q: Queue<T>, i: Input<T>)
    requires Consistent(q)
    ensures Consistent(Step(q, i)) && (Covered(q) && !AtZero(q) ==> Covered(Step(q, i)))
  {
    hide Covered, StageStep, FlushStep, ReturnStep, Promises, Bounded, Remembered, InFlight, LastNotice;
    match i
    case Stage(c) => StageKeeps(q, c);
    case Retry => FlushKeeps(q);
    case TimerFires => FlushKeeps(q);
    case SaveReturns(result) =>
      if q.sent.Some? && q.latest.Some? {
        ReturnKeeps(q, result);
      }
    case Dispose => DisposedIsCovered(Step(q, i));
  }

  lemma DisposedIsCovered<T(!new)>(q: Queue<T>)
    requires q.disposed
    ensures Covered(q)
  {
  }

  lemma {:induction false} RunKeeps<T(!new)>(q: Queue<T>, inputs: seq<Input<T>>)
    requires Consistent(q)
    ensures Consistent(Run(q, inputs))
    decreases |inputs|
  {
    hide Step, Consistent, Covered;
    if inputs != [] {
      StepKeeps(q, inputs[0]);
      RunKeeps(Step(q, inputs[0]), inputs[1..]);
    }
  }

  // ----- runs -----

  /** What the editor stages in the course of a run. */
  function StagedIn<T>(inputs: seq<Input<T>>): seq<Candidate<T>> {
    if inputs == [] then []
    else (if inputs[0].Stage? then [inputs[0].candidate] else []) + StagedIn(inputs[1..])
  }

  /** A ready candidate with revision 0, not preceded by any that would make the queue
      ignore it. */
  predicate StagesZero<T(!new)>(candidates: seq<Candidate<T>>) {
    exists i | 0 <= i < |candidates| :: ZeroAt(candidates, i)
  }

  predicate ZeroAt<T(!new)>(candidates: seq<Candidate<T>>, i: nat)
    requires i < |candidates|
  {
    IsZero(candidates[i]) && forall j | 0 <= j < i :: candidates[j].revision < 0
  }

  /** The latest candidate is the greatest revision staged so far. */
  ghost predicate IsGreatest<T(!new)>(q: Queue<T>, seen: seq<Candidate<T>>) {
    !q.disposed ==> forall c <- seen :: q.latest.Some? && c.revision <= q.latest.value.revision
  }

  lemma StageKeepsGreatest<T(!new)>(q: Queue<T>, seen: seq<Candidate<T>>, c: Candidate<T>, more: seq<Candidate<T>>)
    requires IsGreatest(q, seen) && !StagesZero(seen + [c] + more) && !AtZero(q)
    ensures IsGreatest(StageStep(q, c), seen + [c]) && !AtZero(StageStep(q, c))
  {
    if Accepts(q, c) && IsZero(c) {
      assert forall j | 0 <= j < |seen| :: seen[j] in seen && seen[j].revision < 0;
      ZeroIsStaged(seen, c, more);
    }
  }

  lemma ZeroIsStaged<T(!new)>(seen: seq<Candidate<T>>, c: Candidate<T>, more: seq<Candidate<T>>)
    requires IsZero(c) && forall j | 0 <= j < |seen| :: seen[j].revision < 0
    ensures StagesZero(seen + [c] + more)
  {
    assert ZeroAt(seen + [c] + more, |seen|);
  }

  lemma RestKeepsGreatest<T(!new)>(q: Queue<T>, seen: seq<Candidate<T>>, i: Input<T>)
    requires IsGreatest(q, seen) && !AtZero(q) && !i.Stage?
    ensures IsGreatest(Step(q, i), seen) && !AtZero(Step(q, i))
  {
  }

  lemma {:induction false} RunCovers<T(!new)>(q: Queue<T>, seen: seq<Candidate<T>>, inputs: seq<Input<T>>)
    requires Consistent(q) && Covered(q) && IsGreatest(q, seen) && !AtZero(q)
    requires !StagesZero(seen + StagedIn(inputs))
    ensures Covered(Run(q, inputs))
    decreases |inputs|
  {
    hide Step, StageStep, Consistent, Covered, IsGreatest, StagesZero, AtZero;
    if inputs != [] {
      var q1, rest := Step(q, inputs[0]), inputs[1..];
      StepKeeps(q, inputs[0]);
      if inputs[0].Stage? {
        var c := inputs[0].candidate;
        assert seen + [c] + StagedIn(rest) == seen + StagedIn(inputs);
        assert q1 == StageStep(q, c) by { StageIsAStep(q, c); }
        StageKeepsGreatest(q, seen, c, StagedIn(rest));
        RunCovers(q1, seen + [c], rest);
      } else {
        RestKeepsGreatest(q, seen, inputs[0]);
        assert StagedIn(rest) == StagedIn(inputs);
        RunCovers(q1, seen, rest);
      }
    }
  }

  lemma StageIsAStep<T(!new)>(q: Queue<T>, c: Candidate<T>)
    ensures Step(q, Stage(c)) == StageStep(q, c)
  {
  }

  /** Stage the first so many candidates, one after the other. */
  function Stages<T>(candidates: seq<Candidate<T>>): seq<Input<T>> {
    seq(|candidates|, i requires 0 <= i < |candidates| => Stage(candidates[i]))
  }

  lemma {:induction false} StagedInAppend<T>(a: seq<Input<T>>, b: seq<Input<T>>)
    ensures StagedIn(a + b) == StagedIn(a) + StagedIn(b)
  {
    if a == [] {
      assert a + b == b;
    } else {
      StagedInAppend(a[1..], b);
      assert (a + b)[1..] == a[1..] + b;
    }
  }

  lemma StagedOnce<T(!new)>(c: Candidate<T>)
    ensures StagedIn([Stage(c), TimerFires]) == [c]
  {
    var inputs: seq<Input<T>> := [Stage(c), TimerFires];
    var rest := inputs[1..];
    assert StagedIn(rest[1..]) == [];
    assert StagedIn(rest) == [];
    assert StagedIn(inputs) == [c] + StagedIn(rest);
  }

  lemma {:induction false} StagedInStages<T>(candidates: seq<Candidate<T>>)
    ensures StagedIn(Stages(candidates)) == candidates
  {
    if candidates != [] {
      assert Stages(candidates)[1..] == Stages(candidates[1..]);
      StagedInStages(candidates[1..]);
    }
  }

  lemma {:induction false} RunAppend<T>(q: Queue<T>, a: seq<Input<T>>, b: seq<Input<T>>)
    ensures Run(q, a + b) == Run(Run(q, a), b)
    decreases |a|
  {
    hide Step;
    if a == [] {
      assert a + b == b;
    } else {
      assert (a + b)[1..] == a[1..] + b;
      RunAppend(Step(q, a[0]), a[1..], b);
    }
  }

  /** Before anything was sent. */
  ghost predicate Untouched<T(!new)>(q: Queue<T>) {
    && q.saved == 0 && !q.disposed && q.sent.None?
    && forall e <- q.log :: e.Staged? || (e.Notified? && e.status != HasFailed)
  }

  lemma {:induction false} StagesAreUntouched<T(!new)>(q: Queue<T>, candidates: seq<Candidate<T>>)
    requires Untouched(q) && (q.latest.Some? ==> q.latest.value.revision < 0)
    requires forall c <- candidates :: c.revision < 0
    ensures var q' := Run(q, Stages(candidates));
            Untouched(q') && (q'.latest.Some? ==> q'.latest.value.revision < 0)
    decreases |candidates|
  {
    if candidates != [] {
      assert Stages(candidates)[1..] == Stages(candidates[1..]);
      StagesAreUntouched(Step(q, Stage(candidates[0])), candidates[1..]);
    }
  }

  /** The timer fires for a candidate with revision 0, and nothing is sent. */
  lemma ZeroIsForgotten<T(!new)>(q: Queue<T>, c: Candidate<T>)
    requires Untouched(q) && (q.latest.Some? ==> q.latest.value.revision < 0) && IsZero(c)
    ensures !Covered(Run(q, [Stage(c), TimerFires]))
  {
    var q1 := Step(q, Stage(c));
    var q2 := Step(q1, TimerFires);
    assert [Stage(c), TimerFires][1..] == [TimerFires];
    assert Run(q1, [TimerFires]) == Run(q2, []);
    LastNoticeOf(q.log + [Staged(c)], Notified(IsDirty, 0));
    assert Returned(0, Ok) !in q2.log;
  }

  /** The input for which the editor's work is lost: a first ready revision 0 counts as
      saved although it was never sent. */
  lemma FirstZeroIsLost<T(!new)>(value: T)
    ensures var q := Run(Start(), [Stage(Ready(0, value)), TimerFires]);
            && q.latest == Some(Ready(0, value)) && !q.timer && q.sent.None? && !Covered(q)
            && forall e <- q.log :: !e.Sent? && !e.Returned?
  {
    var inputs: seq<Input<T>> := [Stage(Ready(0, value)), TimerFires];
    ZeroIsForgotten(Start(), Ready(0, value));
    assert inputs[1..] == [TimerFires];
    var q1 := Step(Start(), inputs[0]);
    assert Run(q1, [TimerFires]) == Run(Step(q1, TimerFires), []);
  }

  /** Under every interleaving of edits, retries, timers, answers and disposal: at most one
      save is in flight, revisions are sent in order and never again once the server has
      answered for good, only the latest ready candidate is sent, verdicts are about the
      latest revision, and what counts as saved was confirmed by the server. */
  lemma AutosaveKeepsItsPromises<T(!new)>(inputs: seq<Input<T>>)
    ensures var q := Run(Start(), inputs); Promises(q.log) && Answers(q.log, q.saved)
  {
    hide Run, Covered;
    var q: Queue<T> := Start();
    assert Consistent(q) by {
      StartIsConsistent<T>();
    }
    RunKeeps(q, inputs);
  }

  /** Nothing ready is forgotten, at any moment of any run that stages only (some of) these
      candidates in this order, if and only if no ready candidate with revision 0 is among
      those the queue accepts. */
  lemma AutosaveLosesNothingIff<T(!new)>(candidates: seq<Candidate<T>>)
    ensures (forall inputs | StagedIn(inputs) <= candidates :: Covered(Run(Start(), inputs)))
            <==> !StagesZero(candidates)
  {
    hide StagesZero, Covered, Run, StagedIn;
    if !StagesZero(candidates) {
      forall inputs: seq<Input<T>> | StagedIn(inputs) <= candidates ensures Covered(Run(Start(), inputs)) {
        WithoutZeroIsCovered(candidates, inputs);
      }
    } else {
      ZeroLosesAnEdit(candidates);
    }
  }

  lemma WithoutZeroIsCovered<T(!new)>(candidates: seq<Candidate<T>>, inputs: seq<Input<T>>)
    requires StagedIn(inputs) <= candidates && !StagesZero(candidates)
    ensures Covered(Run(Start(), inputs))
  {
    hide StagesZero, Run;
    PrefixStagesNoZero(candidates, StagedIn(inputs));
    StartIsConsistent<T>();
    assert [] + StagedIn(inputs) == StagedIn(inputs);
    RunCovers(Start(), [], inputs);
  }

  lemma ZeroLosesAnEdit<T(!new)>(candidates: seq<Candidate<T>>)
    requires StagesZero(candidates)
    ensures exists inputs: seq<Input<T>> :: StagedIn(inputs) <= candidates && !Covered(Run(Start(), inputs))
  {
    hide Covered, Run, StagedIn;
    var i: nat :| i < |candidates| && ZeroAt(candidates, i);
    var before: seq<Input<T>>, last: seq<Input<T>> := Stages(candidates[..i]), [Stage(candidates[i]), TimerFires];
    StagesAreUntouched(Start(), candidates[..i]);
    ZeroIsForgotten(Run(Start(), before), candidates[i]);
    RunAppend(Start(), before, last);
    StagedInAppend(before, last);
    StagedInStages(candidates[..i]);
    StagedOnce(candidates[i]);
    assert candidates[..i] + [candidates[i]] <= candidates;
  }

  lemma PrefixStagesNoZero<T(!new)>(candidates: seq<Candidate<T>>, prefix: seq<Candidate<T>>)
    requires prefix <= candidates && !StagesZero(candidates)
    ensures !StagesZero(prefix)
  {
    forall i | 0 <= i < |prefix| ensures !ZeroAt(prefix, i) {
      assert !ZeroAt(candidates, i);
    }
  }

  lemma StartIsConsistent<T(!new)>()
    ensures var q: Queue<T> := Start(); Consistent(q) && Covered(q)
  {
  }

  // ----- one more event -----

  lemma LastNoticeOf<T(!new)>(log: seq<Event<T>>, e: Event<T>)
    ensures LastNotice(log + [e]) == if e.Notified? then Some((e.status, e.revision)) else LastNotice(log)
    ensures InFlight(log + [e]) == InFlight(log) + if e.Sent? then 1 else if e.Returned? then -1 else 0
  {
    assert (log + [e])[..|log + [e]| - 1] == log;
  }

  lemma StagedKeepsLatest<T(!new)>(log: seq<Event<T>>, c: Candidate<T>)
    requires SentIsLatest(log)
    ensures SentIsLatest(log + [Staged(c)])
  {
    PrefixesStay(log, Staged(c));
  }

  lemma StagedKeepsOrder<T(!new)>(log: seq<Event<T>>, c: Candidate<T>)
    requires Ascending(log) && NeverAgain(log) && VerdictIsLatest(log)
    ensures var log' := log + [Staged(c)]; Ascending(log') && NeverAgain(log') && VerdictIsLatest(log')
  {
  }

  lemma StagedKeeps<T(!new)>(log: seq<Event<T>>, latest: Option<Candidate<T>>, c: Candidate<T>)
    requires Promises(log) && Bounded(log, latest) && (latest.Some? ==> c.revision > latest.value.revision)
    ensures Promises(log + [Staged(c)]) && Bounded(log + [Staged(c)], Some(c))
    ensures InFlight(log + [Staged(c)]) == InFlight(log) && LastNotice(log + [Staged(c)]) == LastNotice(log)
    ensures Staged(c) in log + [Staged(c)]
  {
    hide SentIsLatest, InFlight, LastNotice, Ascending, NeverAgain, VerdictIsLatest;
    LastNoticeOf(log, Staged(c));
    StagedKeepsLatest(log, c);
    StagedKeepsOrder(log, c);
    assert (log + [Staged(c)])[|log|] == Staged(c);
  }

  lemma NotifiedKeeps<T(!new)>(log: seq<Event<T>>, latest: Option<Candidate<T>>, status: Status, revision: int)
    requires Promises(log) && Bounded(log, latest)
    requires latest.Some? && Staged(latest.value) in log && revision == latest.value.revision
    ensures var log' := log + [Notified(status, revision)];
            && Promises(log') && Bounded(log', latest) && InFlight(log') == InFlight(log)
            && LastNotice(log') == Some((status, revision)) && Staged(latest.value) in log'
  {
    LastNoticeOf(log, Notified(status, revision));
    PrefixesStay(log, Notified(status, revision));
    InMore(log, Notified(status, revision), Staged(latest.value));
  }

  lemma SentKeepsLatest<T(!new)>(log: seq<Event<T>>, latest: Option<Candidate<T>>)
    requires SentIsLatest(log) && Bounded(log, latest)
    requires latest.Some? && latest.value.Ready? && Staged(latest.value) in log
    ensures SentIsLatest(log + [Sent(latest.value.revision, latest.value.value)])
  {
    var e := Sent(latest.value.revision, latest.value.value);
    PrefixesStay(log, e);
    assert (log + [e])[..|log|] == log;
  }

  lemma SentKeeps<T(!new)>(log: seq<Event<T>>, latest: Option<Candidate<T>>)
    requires Promises(log) && Bounded(log, latest) && InFlight(log) == 0
    requires latest.Some? && latest.value.Ready? && Staged(latest.value) in log
    requires AnsweredBelow(log, latest.value.revision)
    ensures var log' := log + [Sent(latest.value.revision, latest.value.value)];
            && Promises(log') && Bounded(log', latest) && InFlight(log') == 1 && LastNotice(log') == LastNotice(log)
            && Staged(latest.value) in log'
  {
    hide SentIsLatest;
    var e := Sent(latest.value.revision, latest.value.value);
    LastNoticeOf(log, e);
    SentKeepsLatest(log, latest);
    InMore(log, e, Staged(latest.value));
  }

  lemma ReturnedKeeps<T(!new)>(log: seq<Event<T>>, latest: Option<Candidate<T>>, revision: int, result: Result)
    requires Promises(log) && Bounded(log, latest) && InFlight(log) == 1
    requires latest.Some? && revision <= latest.value.revision && Staged(latest.value) in log
    ensures var log' := log + [Returned(revision, result)];
            && Promises(log') && Bounded(log', latest) && InFlight(log') == 0 && LastNotice(log') == LastNotice(log)
            && Staged(latest.value) in log'
  {
    LastNoticeOf(log, Returned(revision, result));
    PrefixesStay(log, Returned(revision, result));
    InMore(log, Returned(revision, result), Staged(latest.value));
  }

  lemma PrefixesStay<T(!new)>(log: seq<Event<T>>, e: Event<T>)
    ensures forall j | 0 <= j <= |log| :: (log + [e])[..j] == log[..j]
  {
  }

  lemma InMore<T(!new)>(log: seq<Event<T>>, e: Event<T>, x: Event<T>)
    requires x in log
    ensures x in log + [e]
  {
  }

  lemma AnswersMore<T(!new)>(log: seq<Event<T>>, saved: int, e: Event<T>)
    requires Answers(log, saved)
    ensures Answers(log + [e], saved)
  {
  }

  lemma IsAnswered<T(!new)>(log: seq<Event<T>>, saved: int)
    requires Answers(log, saved) && saved != 0
    ensures Returned(saved, Ok) in log
  {
  }

  lemma AnswersReturned<T(!new)>(log: seq<Event<T>>, before: int, after: int, revision: int, result: Result)
    requires Answers(log, before) && after in {before, revision} && (after != before ==> result == Ok)
    ensures Answers(log + [Returned(revision, result)], after)
  {
    assert (log + [Returned(revision, result)])[|log|] == Returned(revision, result);
  }

  lemma BelowMore<T(!new)>(log: seq<Event<T>>, revision: int, e: Event<T>)
    requires AnsweredBelow(log, revision) && !e.Returned?
    ensures AnsweredBelow(log + [e], revision)
  {
  }

  // ----- what is remembered -----

  /** No answer is about a revision that was only staged now. */
  lemma RememberNew<T(!new)>(log: seq<Event<T>>, latest: Option<Candidate<T>>, c: Candidate<T>, saved: int, rejected: Option<int>)
    requires Bounded(log, latest) && (latest.Some? ==> c.revision > latest.value.revision)
    ensures Remembered(log + [Staged(c)], Some(c), saved, rejected)
  {
  }

  lemma RememberMore<T(!new)>(log: seq<Event<T>>, latest: Option<Candidate<T>>, saved: int, rejected: Option<int>, e: Event<T>)
    requires Remembered(log, latest, saved, rejected) && !e.Returned?
    ensures Remembered(log + [e], latest, saved, rejected)
  {
  }

  /** A revision that may be sent has been neither accepted nor rejected. */
  lemma NewToServer<T(!new)>(log: seq<Event<T>>, latest: Option<Candidate<T>>, saved: int, rejected: Option<int>)
    requires Bounded(log, latest) && Remembered(log, latest, saved, rejected)
    requires latest.Some? && latest.value.revision != saved && rejected != Some(latest.value.revision)
    ensures AnsweredBelow(log, latest.value.revision)
  {
  }

  lemma OlderAnswer<T(!new)>(log: seq<Event<T>>, latest: Option<Candidate<T>>, before: int, after: int, rejected: Option<int>,
      revision: int, result: Result)
    requires Bounded(log, latest) && Remembered(log, latest, before, rejected)
    requires latest.Some? && revision < latest.value.revision && after == (if result == Ok then revision else before)
    requires AnsweredBelow(log, revision)
    ensures Remembered(log + [Returned(revision, result)], latest, after, rejected)
  {
  }

  lemma LatestAnswer<T(!new)>(log: seq<Event<T>>, latest: Option<Candidate<T>>, before: int, after: int,
      rejectedBefore: Option<int>, rejected: Option<int>, revision: int, result: Result)
    requires Bounded(log, latest) && Remembered(log, latest, before, rejectedBefore)
    requires latest.Some? && revision == latest.value.revision && after == (if result == Ok then revision else before)
    requires rejected == if result == Rejected then Some(revision) else rejectedBefore
    requires AnsweredBelow(log, revision)
    ensures Remembered(log + [Returned(revision, result)], latest, after, rejected)
  {
  }

  // ----- what the editor is told -----

  /** Each notice stands next to what it reports: a candidate that was just staged, a save
      that is just sent, or an answer of the server that just came, with its own verdict. */
  predicate TellsTheTruth<T(==)>(log: seq<Event<T>>, j: nat)
    requires j < |log| && log[j].Notified?
  {
    var before := if j > 0 then [log[j - 1]] else [];
    match log[j].status
    case IsBlocked => before == [Staged(Blocked(log[j].revision))]
    case IsDirty => j > 0 && log[j - 1].Staged? && log[j - 1].candidate.Ready? && log[j - 1].candidate.revision == log[j].revision
    case IsSaving => j + 1 < |log| && log[j + 1].Sent? && log[j + 1].revision == log[j].revision
    case IsSaved => before == [Returned(log[j].revision, Ok)]
    case HasFailed => before == [Returned(log[j].revision, Rejected)] || before == [Returned(log[j].revision, Failed)]
  }

  ghost predicate NoticesAreTrue<T(!new)>(log: seq<Event<T>>) {
    forall j | 0 <= j < |log| && log[j].Notified? :: TellsTheTruth(log, j)
  }

  /** The answer at `k` is about the latest candidate staged before it. */
  ghost predicate IsLatestAt<T(!new)>(log: seq<Event<T>>, k: nat)
    requires k < |log| && log[k].Returned?
  {
    forall i | 0 <= i < k && log[i].Staged? :: log[i].candidate.revision <= log[k].revision
  }

  /** Every staged candidate, and every answer about the latest candidate, is reported at once. */
  ghost predicate NothingUntold<T(!new)>(log: seq<Event<T>>) {
    && (forall k | 0 <= k < |log| && log[k].Staged? ::
          k + 1 < |log| &&
          log[k + 1] == Notified(if log[k].candidate.Blocked? then IsBlocked else IsDirty, log[k].candidate.revision))
    && (forall k | 0 <= k < |log| && log[k].Returned? && IsLatestAt(log, k) ::
          k + 1 < |log| && log[k + 1] == Notified(if log[k].result == Ok then IsSaved else HasFailed, log[k].revision))
  }

  /** What one call may add to the log. */
  predicate Chunk<T>(added: seq<Event<T>>) {
    || added == []
    || (|added| == 2 && added[0].Staged?
        && added[1] == Notified(if added[0].candidate.Blocked? then IsBlocked else IsDirty, added[0].candidate.revision))
    || (|added| == 2 && added[0].Notified? && added[0].status == IsSaving && added[1].Sent? && added[1].revision == added[0].revision)
    || (|added| == 2 && added[0].Returned?
        && added[1] == Notified(if added[0].result == Ok then IsSaved else HasFailed, added[0].revision))
    || (|added| == 1 && added[0].Returned?)
    || (|added| == 3 && added[0].Returned? && added[1].Notified? && added[1].status == IsSaving
        && added[2].Sent? && added[2].revision == added[1].revision)
  }

  lemma ChunkKeepsTruth<T(!new)>(log: seq<Event<T>>, added: seq<Event<T>>)
    requires NoticesAreTrue(log) && Chunk(added)
    ensures NoticesAreTrue(log + added)
  {
    var all := log + added;
    forall j | 0 <= j < |all| && all[j].Notified? ensures TellsTheTruth(all, j) {
      if j < |log| {
        assert TellsTheTruth(log, j);
      }
    }
  }

  /** In a queue that is not disposed an answer that is not reported at once is outdated. */
  lemma ChunkTellsAll<T(!new)>(log: seq<Event<T>>, added: seq<Event<T>>)
    requires NothingUntold(log) && Chunk(added)
    requires |added| > 0 && added[0].Returned? && !(|added| == 2) ==>
               exists i | 0 <= i < |log| && log[i].Staged? :: log[i].candidate.revision > added[0].revision
    ensures NothingUntold(log + added)
  {
    var all := log + added;
    forall k | 0 <= k < |all| && all[k].Returned? && IsLatestAt(all, k)
      ensures k + 1 < |all| && all[k + 1] == Notified(if all[k].result == Ok then IsSaved else HasFailed, all[k].revision)
    {
      if k < |log| {
        assert IsLatestAt(log, k) by {
          forall i | 0 <= i < k && log[i].Staged? ensures log[i].candidate.revision <= log[k].revision {
            assert all[i] == log[i];
          }
        }
      } else if added[0].Returned? && |added| != 2 {
        OutdatedAnswer(log, added);
      }
    }
  }

  lemma OutdatedAnswer<T(!new)>(log: seq<Event<T>>, added: seq<Event<T>>)
    requires |added| > 0 && added[0].Returned?
    requires exists i | 0 <= i < |log| && log[i].Staged? :: log[i].candidate.revision > added[0].revision
    ensures !IsLatestAt(log + added, |log|)
  {
    var i :| 0 <= i < |log| && log[i].Staged? && log[i].candidate.revision > added[0].revision;
    assert (log + added)[i] == log[i];
  }

  /** What a call adds, and that what it leaves unreported is outdated. */
  lemma StepAddsChunk<T(!new)>(q: Queue<T>, i: Input<T>) returns (added: seq<Event<T>>)
    requires Consistent(q)
    ensures Step(q, i).log == q.log + added && Chunk(added)
    ensures !q.disposed && |added| > 0 && added[0].Returned? && !(|added| == 2) ==>
              exists k | 0 <= k < |q.log| && q.log[k].Staged? :: q.log[k].candidate.revision > added[0].revision
  {
    hide Promises, Bounded, Remembered, InFlight, LastNotice, AnsweredBelow, Answers;
    var t := Step(q, i);
    assert q.log <= t.log;
    added := t.log[|q.log|..];
    if |added| > 0 && added[0].Returned? && !q.disposed && !(|added| == 2) {
      assert Staged(q.latest.value) in q.log;
      var k :| 0 <= k < |q.log| && q.log[k] == Staged(q.latest.value);
      assert q.log[k].candidate.revision > added[0].revision;
    }
  }

  lemma DisposedStays<T>(q: Queue<T>, i: Input<T>)
    ensures q.disposed ==> Step(q, i).disposed
  {
  }

  lemma {:induction false} RunTells<T(!new)>(q: Queue<T>, inputs: seq<Input<T>>)
    requires Consistent(q) && NoticesAreTrue(q.log) && (!q.disposed ==> NothingUntold(q.log))
    ensures NoticesAreTrue(Run(q, inputs).log)
    ensures !Run(q, inputs).disposed ==> NothingUntold(Run(q, inputs).log)
    decreases |inputs|
  {
    hide Step, Consistent, NoticesAreTrue, NothingUntold, Chunk;
    if inputs != [] {
      var added := StepAddsChunk(q, inputs[0]);
      StepKeeps(q, inputs[0]);
      DisposedStays(q, inputs[0]);
      ChunkKeepsTruth(q.log, added);
      if !q.disposed {
        ChunkTellsAll(q.log, added);
      }
      RunTells(Step(q, inputs[0]), inputs[1..]);
    }
  }

  /** Over every run: a candidate is reported as blocked or dirty when it is staged, a revision
      as being saved when it is sent, as saved directly after the server confirmed it, and as
      failed directly after the server refused it; and in a queue that is not disposed no
      candidate, and no answer about the latest one, goes unreported. */
  lemma NoticesFollowAnswers<T(!new)>(inputs: seq<Input<T>>)
    ensures var q := Run(Start(), inputs); NoticesAreTrue(q.log) && (!q.disposed ==> NothingUntold(q.log))
  {
    hide Run, Consistent;
    var q: Queue<T> := Start();
    assert Consistent(q) by {
      StartIsConsistent<T>();
    }
    RunTells(q, inputs);
  }

  // ----- when a save is sent -----

  /** An answer that came for good. */
  ghost predicate Settled<T(!new)>(log: seq<Event<T>>, revision: int) {
    Returned(revision, Ok) in log || Returned(revision, Rejected) in log
  }

  /** What is remembered as rejected was answered so. */
  ghost predicate RejectionsAnswered<T(!new)>(q: Queue<T>) {
    q.rejected.Some? ==> Returned(q.rejected.value, Rejected) in q.log
  }

  lemma StepKeepsRejections<T(!new)>(q: Queue<T>, i: Input<T>)
    requires RejectionsAnswered(q)
    ensures RejectionsAnswered(Step(q, i))
  {
    var t := Step(q, i);
    assert q.log <= t.log;
    if t.rejected != q.rejected {
      assert t.log[|q.log|] == Returned(t.rejected.value, Rejected);
    }
  }

  lemma {:induction false} RunKeepsRejections<T(!new)>(q: Queue<T>, inputs: seq<Input<T>>)
    requires RejectionsAnswered(q)
    ensures RejectionsAnswered(Run(q, inputs))
    decreases |inputs|
  {
    hide Step, RejectionsAnswered;
    if inputs != [] {
      StepKeepsRejections(q, inputs[0]);
      RunKeepsRejections(Step(q, inputs[0]), inputs[1..]);
    }
  }

  /** After any run a retry, or the timer, sends the latest ready revision unless a save is
      running, the queue is disposed, or the server has accepted or rejected that revision
      for good; a failed one is sent again. */
  lemma RetrySendsIff<T(!new)>(inputs: seq<Input<T>>)
    ensures var q := Run(Start(), inputs); var c := q.latest;
            c.Some? && c.value.Ready? && c.value.revision != 0 ==>
              var added := Step(q, Retry).log[|q.log|..];
              if !q.disposed && q.sent.None? && !Settled(q.log, c.value.revision)
              then added == [Notified(IsSaving, c.value.revision), Sent(c.value.revision, c.value.value)]
              else added == []
  {
    hide Run;
    var q: Queue<T> := Run(Start(), inputs);
    assert Consistent(q) by {
      StartIsConsistent<T>();
      hide Consistent;
      RunKeeps<T>(Start(), inputs);
    }
    assert RejectionsAnswered(q) by {
      var first: Queue<T> := Start();
      assert RejectionsAnswered(first);
      hide RejectionsAnswered;
      RunKeepsRejections(first, inputs);
    }
    if q.latest.Some? && q.latest.value.revision != 0 && !q.disposed {
      SettledIsRemembered(q);
    }
  }

  lemma SettledIsRemembered<T(!new)>(q: Queue<T>)
    requires Consistent(q) && RejectionsAnswered(q) && q.latest.Some? && q.latest.value.revision != 0 && !q.disposed
    ensures var r := q.latest.value.revision; Settled(q.log, r) <==> r == q.saved || q.rejected == Some(r)
  {
    hide Promises, Bounded, InFlight, LastNotice, AnsweredBelow, RunningIsNew, RejectedIsReported;
    var r := q.latest.value.revision;
    if Returned(r, Ok) in q.log {
      var i :| 0 <= i < |q.log| && q.log[i] == Returned(r, Ok);
    }
    if Returned(r, Rejected) in q.log {
      var i :| 0 <= i < |q.log| && q.log[i] == Returned(r, Rejected);
    }
  }

  /** What an answer leads to at once: its notice if it is about the latest candidate, a new
      save if a newer ready one waits, and nothing if a newer one is blocked. */
  lemma AnswerIsHandled<T(!new)>(q: Queue<T>, result: Result)
    requires q.sent.Some? && q.latest.Some?
    ensures var added := Step(q, SaveReturns(result)).log[|q.log|..]; var r, c := q.sent.value.revision, q.latest.value;
            && |added| > 0 && added[0] == Returned(r, result)
            && (q.disposed ==> |added| == 1)
            && (!q.disposed && c.revision == r ==> added[1..] == [Notified(if result == Ok then IsSaved else HasFailed, r)])
            && (!q.disposed && c.revision != r && c.Blocked? ==> |added| == 1)
            && (!q.disposed && c.revision != r && c.Ready? && q.saved != c.revision && q.rejected != Some(c.revision) ==>
                  added[1..] == [Notified(IsSaving, c.revision), Sent(c.revision, c.value)])
  {
  }
}
