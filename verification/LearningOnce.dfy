/** Restart, completion and activity take effect once, and reading pointers stay valid. */
module LearningOnce {
  import opened Options
  import L = LearningState
  import opened ProgressRemap
  import opened TokenWeights
  import opened Learning
  import opened LearningHistory

  // ----- snapshots are only added -----

  predicate Remembers(a: map<string, map<Key, Snapshot>>, b: map<string, map<Key, Snapshot>>) {
    forall e <- a, key <- a[e] :: e in b && key in b[e] && b[e][key] == a[e][key]
  }

  lemma StepRemembers(db: Db, a: Action, w: Weights)
    requires SeenExact(db)
    ensures Remembers(db.snapshots, Step(db, a, w).snapshots)
  {
    hide SeenExact;
    if ChatAction(a) {
      hide Step;
      ChatKeepsLearning(db, a, w);
    } else {
      hide RestartTx, CompleteTx, ReadTx, SnapshotTx, EnrollTx, Publishable, Remap, Latest, OldOrder;
      hide Consumed, UsagesOf, WithoutEnrollment, AllCompleted, CompletedState;
      match a
      case DoPublish(course, version) =>
      case DoEnroll(user, course, newId) =>
        SeenFacts(db);
        EnrollWrites(db, user, course, newId);
      case DoRestart(e, c) => RestartWrites(db, e, c, w);
      case DoComplete(e, lesson, c, now) => CompleteWrites(db, e, lesson, c, now);
      case DoRead(e, g, v, lesson) => ReadWrites(db, e, g, v, lesson);
      case DoSnapshot(e, c) => SnapshotWrites(db, e, c);
    }
  }

  lemma {:induction false} RunRemembers(db: Db, run: seq<Action>, w: Weights)
    requires SeenExact(db)
    ensures Remembers(db.snapshots, Run(db, run, w).snapshots)
    decreases |run|
  {
    hide Step, SeenExact;
    if run != [] {
      StepKeepsSeen(db, run[0], w);
      StepRemembers(db, run[0], w);
      RunRemembers(Step(db, run[0], w), run[1..], w);
    }
  }

  /** An accepted restart is accepted once: whatever happens afterwards, sending the same
      command again changes nothing and is answered as a replay, and another command under
      the same request id is refused. */
  lemma RestartIsIdempotent(db: Db, e: string, c: Command, run: seq<Action>, w: Weights, again: Command)
    requires SeenExact(db) && RestartTx(db, e, c, w).1 == Done && again.request == c.request
    ensures var db' := Run(RestartTx(db, e, c, w).0, run, w);
            e in db'.enrollments && e in db'.snapshots && Published(db', db'.enrollments[e].course) ==>
              RestartTx(db', e, again, w) == (db', if again == c then Replay else Conflict)
  {
    hide Run, SeenExact, Latest, Settle, NextGeneration;
    var db1 := RestartTx(db, e, c, w).0;
    StepKeepsSeen(db, DoRestart(e, c), w);
    RunRemembers(db1, run, w);
    RestartStores(db, e, c, w);
  }

  /** What an accepted restart leaves under its key. */
  lemma RestartStores(db: Db, e: string, c: Command, w: Weights)
    requires RestartTx(db, e, c, w).1 == Done
    ensures var ss := RestartTx(db, e, c, w).0.snapshots; var key := RestartKey(c.request);
            e in ss && key in ss[e] && SameCommand(ss[e][key], c)
  {
    hide Consumed, UsagesOf, WithoutEnrollment;
  }

  // ----- restarts and completions are counted exactly -----

  function RestartKeys(ss: map<Key, Snapshot>): set<Key> {
    set k | k in ss && k.RestartKey?
  }

  predicate RestartsCounted(en: Enrollment, ss: map<Key, Snapshot>) {
    && |RestartKeys(ss)| == en.generation
    && (forall k <- RestartKeys(ss) :: ss[k].generation < en.generation)
    && (forall j, k | j in RestartKeys(ss) && k in RestartKeys(ss) && j != k :: ss[j].generation != ss[k].generation)
  }

  predicate CompletionCounted(en: Enrollment, ss: map<Key, Snapshot>) {
    && (forall k <- ss :: k.CompletedKey? ==>
          k.generation <= en.generation && ss[k].generation == k.generation && ss[k].state.completedAt.Some?)
    && (CompletedKey(en.generation) in ss <==> en.state.completedAt.Some?)
    && (forall k <- RestartKeys(ss) :: CompletedKey(ss[k].generation) in ss <==> ss[k].state.completedAt.Some?)
  }

  predicate Counted(db: Db) {
    && db.snapshots.Keys == db.enrollments.Keys
    && forall e <- db.enrollments ::
         RestartsCounted(db.enrollments[e], db.snapshots[e]) && CompletionCounted(db.enrollments[e], db.snapshots[e])
  }

  /** A restart adds one key, the generation it ends, and one generation. */
  lemma RestartAddsOne(en: Enrollment, ss: map<Key, Snapshot>, request: string, s: Snapshot, next: Enrollment)
    requires RestartsCounted(en, ss) && RestartKey(request) !in ss
    requires s.generation == en.generation && next.generation == en.generation + 1
    ensures RestartsCounted(next, ss[RestartKey(request) := s])
  {
    assert RestartKeys(ss[RestartKey(request) := s]) == RestartKeys(ss) + {RestartKey(request)};
  }

  lemma RestartCounts(en: Enrollment, ss: map<Key, Snapshot>, request: string, s: Snapshot, next: Enrollment)
    requires RestartsCounted(en, ss) && CompletionCounted(en, ss) && RestartKey(request) !in ss
    requires s.generation == en.generation && s.state == en.state
    requires next.generation == en.generation + 1 && next.state.completedAt.None?
    ensures RestartsCounted(next, ss[RestartKey(request) := s]) && CompletionCounted(next, ss[RestartKey(request) := s])
  {
    hide RestartsCounted;
    RestartAddsOne(en, ss, request, s, next);
  }

  lemma OtherKeyCounts(en: Enrollment, ss: map<Key, Snapshot>, key: Key, s: Snapshot)
    requires RestartsCounted(en, ss) && !key.RestartKey?
    ensures RestartsCounted(en, ss[key := s])
  {
    assert RestartKeys(ss[key := s]) == RestartKeys(ss);
  }

  /** Enrollments that keep generation and completion, with the same snapshots. */
  lemma KeepsCounted(db: Db, db': Db)
    requires Counted(db) && db'.snapshots == db.snapshots && db'.enrollments.Keys == db.enrollments.Keys
    requires forall e <- db.enrollments ::
               db'.enrollments[e].generation == db.enrollments[e].generation
               && (db'.enrollments[e].state.completedAt.Some? <==> db.enrollments[e].state.completedAt.Some?)
    ensures Counted(db')
  {
  }

  lemma RestartKeepsCounted(db: Db, e: string, c: Command, w: Weights)
    requires Counted(db)
    ensures Counted(RestartTx(db, e, c, w).0)
  {
    hide RestartTx, Consumed, UsagesOf, WithoutEnrollment, Latest, RestartsCounted, CompletionCounted;
    RestartWrites(db, e, c, w);
    var db' := RestartTx(db, e, c, w).0;
    if db' != db {
      var en := db.enrollments[e];
      var s := Snapshot(en.generation, en.revision, c.version, en.state);
      RestartCounts(en, db.snapshots[e], c.request, s, db'.enrollments[e]);
      forall x | x in db'.enrollments && x != e
        ensures RestartsCounted(db'.enrollments[x], db'.snapshots[x]) && CompletionCounted(db'.enrollments[x], db'.snapshots[x])
      {
        ActiveDoesNotCount(db.enrollments[x], db'.enrollments[x], db.snapshots[x]);
      }
    }
  }

  lemma ActiveDoesNotCount(a: Enrollment, b: Enrollment, ss: map<Key, Snapshot>)
    requires RestartsCounted(a, ss) && CompletionCounted(a, ss)
    requires b.generation == a.generation && (b.state.completedAt.Some? <==> a.state.completedAt.Some?)
    ensures RestartsCounted(b, ss) && CompletionCounted(b, ss)
  {
  }

  /** A COMPLETED snapshot is written in the same step that sets the completion. */
  lemma CompletionCounts(en: Enrollment, ss: map<Key, Snapshot>, next: Enrollment, s: Snapshot, finished: bool)
    requires RestartsCounted(en, ss) && CompletionCounted(en, ss) && next.generation == en.generation
    requires next.state.completedAt.Some? <==> en.state.completedAt.Some? || finished
    requires finished ==> s.generation == en.generation && s.state == next.state
    ensures CompletionCounted(next, if finished then ss[CompletedKey(en.generation) := s] else ss)
  {
  }

  lemma CompleteKeepsCounted(db: Db, e: string, lesson: string, c: Completion, now: L.Time)
    requires Counted(db)
    ensures Counted(CompleteTx(db, e, lesson, c, now).0)
  {
    hide CompleteTx, AllCompleted, Latest, L.EverCompleted, L.Completed, RestartsCounted, CompletionCounted, CompletedState;
    CompleteWrites(db, e, lesson, c, now);
    var db' := CompleteTx(db, e, lesson, c, now).0;
    if db' != db {
      var en := db.enrollments[e];
      var version := Latest(db, en.course);
      var next := CompletedState(en.state, version, lesson, c.completed, now);
      var s := Snapshot(en.generation, en.revision + 1, version.id, next);
      var finished := AllCompleted(version, next) && en.state.completedAt.None?;
      ActiveRestarts(en, db'.enrollments[e], db.snapshots[e]);
      OtherKeyCounts(db'.enrollments[e], db.snapshots[e], CompletedKey(en.generation), s);
      AllCompletedSame(en.state, version, lesson, c.completed, now);
      CompletionCounts(en, db.snapshots[e], db'.enrollments[e], s, finished);
    }
  }

  lemma ActiveRestarts(a: Enrollment, b: Enrollment, ss: map<Key, Snapshot>)
    requires RestartsCounted(a, ss) && b.generation == a.generation
    ensures RestartsCounted(b, ss)
  {
  }

  /** Stamping the course completion does not change which lessons are completed. */
  lemma AllCompletedSame(s: L.State, version: Version, lesson: string, completed: bool, now: L.Time)
    ensures var next := CompletedState(s, version, lesson, completed, now);
            && (AllCompleted(version, next) <==> AllCompleted(version, L.SetLessonCompletion(s, lesson, completed, now)))
            && (next.completedAt.Some? <==> s.completedAt.Some? || AllCompleted(version, next))
            && next.reading == s.reading
  {
  }

  lemma SnapshotKeepsCounted(db: Db, e: string, c: Command)
    requires Counted(db)
    ensures Counted(SnapshotTx(db, e, c).0)
  {
    hide SnapshotTx, RestartsCounted;
    SnapshotWrites(db, e, c);
    if SnapshotTx(db, e, c).0 != db {
      var en := db.enrollments[e];
      OtherKeyCounts(en, db.snapshots[e], ManualKey(c.request), Snapshot(en.generation, en.revision, c.version, en.state));
    }
  }

  lemma EnrollKeepsCounted(db: Db, user: string, course: string, newId: string)
    requires Counted(db)
    ensures Counted(EnrollTx(db, user, course, newId).0)
  {
    hide EnrollTx, RestartsCounted, CompletionCounted;
    EnrollWrites(db, user, course, newId);
    var db' := EnrollTx(db, user, course, newId).0;
    forall x | x in db'.enrollments
      ensures RestartsCounted(db'.enrollments[x], db'.snapshots[x]) && CompletionCounted(db'.enrollments[x], db'.snapshots[x])
    {
      if x in db.enrollments {
        ActiveDoesNotCount(db.enrollments[x], db'.enrollments[x], db.snapshots[x]);
      } else {
        NoneCounted(db'.enrollments[x]);
      }
    }
  }

  lemma NoneCounted(en: Enrollment)
    requires IsNew(en)
    ensures RestartsCounted(en, map[]) && CompletionCounted(en, map[])
  {
    var none: map<Key, Snapshot> := map[];
    assert RestartKeys(none) == {};
  }

  lemma PublishKeepsCounted(db: Db, course: string, version: Version)
    requires Counted(db)
    ensures Counted(PublishTx(db, course, version).0)
  {
    hide Publishable, Remap, OldOrder, RestartsCounted, CompletionCounted, Counted;
    KeepsCounted(db, PublishTx(db, course, version).0) by {
      CountedKeys(db);
    }
  }

  lemma CountedKeys(db: Db)
    requires Counted(db)
    ensures db.snapshots.Keys == db.enrollments.Keys
  {
  }

  lemma ReadKeepsCounted(db: Db, e: string, generation: nat, versionId: string, lesson: string)
    requires Counted(db)
    ensures Counted(ReadTx(db, e, generation, versionId, lesson).0)
  {
    hide ReadTx, OnlyLesson, Latest, Counted;
    ReadWrites(db, e, generation, versionId, lesson);
    KeepsCounted(db, ReadTx(db, e, generation, versionId, lesson).0);
  }

  lemma StepKeepsCounted(db: Db, a: Action, w: Weights)
    requires Counted(db)
    ensures Counted(Step(db, a, w))
  {
    hide Counted;
    if ChatAction(a) {
      hide Step;
      ChatKeepsLearning(db, a, w);
      KeepsCounted(db, Step(db, a, w));
    } else {
      hide EnrollTx, RestartTx, CompleteTx, ReadTx, PublishTx, SnapshotTx;
      match a
      case DoPublish(course, version) => PublishKeepsCounted(db, course, version);
      case DoEnroll(user, course, newId) => EnrollKeepsCounted(db, user, course, newId);
      case DoRestart(e, c) => RestartKeepsCounted(db, e, c, w);
      case DoComplete(e, lesson, c, now) => CompleteKeepsCounted(db, e, lesson, c, now);
      case DoRead(e, g, v, lesson) => ReadKeepsCounted(db, e, g, v, lesson);
      case DoSnapshot(e, c) => SnapshotKeepsCounted(db, e, c);
    }
  }

  lemma {:induction false} RunKeepsCounted(db: Db, run: seq<Action>, w: Weights)
    requires Counted(db)
    ensures Counted(Run(db, run, w))
    decreases |run|
  {
    hide Step, Counted;
    if run != [] {
      StepKeepsCounted(db, run[0], w);
      RunKeepsCounted(Step(db, run[0], w), run[1..], w);
    }
  }

  /** After any run, the generation of an enrollment is the number of restart requests that
      were accepted for it, each for a generation of its own; and every generation has a
      COMPLETED snapshot exactly when it was completed: the current one is, and a past one
      was when its restart was accepted. */
  lemma RestartsAndCompletionsTakeEffectOnce(run: seq<Action>, w: Weights, e: string)
    ensures var db := Run(INITIAL, run, w);
            e in db.enrollments ==>
              && e in db.snapshots
              && RestartsCounted(db.enrollments[e], db.snapshots[e])
              && CompletionCounted(db.enrollments[e], db.snapshots[e])
              && forall g | 0 <= g < db.enrollments[e].generation :: EndedOnce(db.snapshots[e], g)
  {
    hide Run, RestartsCounted, CompletionCounted, EndedOnce;
    RunKeepsCounted(INITIAL, run, w);
    var db := Run(INITIAL, run, w);
    if e in db.enrollments {
      forall g | 0 <= g < db.enrollments[e].generation ensures EndedOnce(db.snapshots[e], g) {
        EveryGenerationEnded(db.enrollments[e], db.snapshots[e], g);
      }
    }
  }

  /** The restart that ended a generation, and whether the generation had been completed. */
  predicate EndedOnce(ss: map<Key, Snapshot>, g: nat) {
    exists k <- RestartKeys(ss) :: ss[k].generation == g && (CompletedKey(g) in ss <==> ss[k].state.completedAt.Some?)
  }

  lemma EveryGenerationEnded(en: Enrollment, ss: map<Key, Snapshot>, g: nat)
    requires RestartsCounted(en, ss) && CompletionCounted(en, ss) && g < en.generation
    ensures EndedOnce(ss, g)
  {
    var ended := GenerationsOf(ss, RestartKeys(ss));
    AllBelow(ended, en.generation);
    assert g in ended;
  }

  /** The generations that these restarts ended, as many as there are restarts. */
  function GenerationsOf(ss: map<Key, Snapshot>, keys: set<Key>): (gs: set<nat>)
    requires keys <= ss.Keys
    requires forall j, k | j in keys && k in keys && j != k :: ss[j].generation != ss[k].generation
    ensures |gs| == |keys| && forall g: nat :: g in gs <==> exists k <- keys :: ss[k].generation == g
  {
    SizeOfGenerations(ss, keys);
    set k | k in keys :: ss[k].generation
  }

  lemma {:induction false} SizeOfGenerations(ss: map<Key, Snapshot>, keys: set<Key>)
    requires keys <= ss.Keys
    requires forall j, k | j in keys && k in keys && j != k :: ss[j].generation != ss[k].generation
    ensures |set k | k in keys :: ss[k].generation| == |keys|
    decreases keys
  {
    if keys != {} {
      var k :| k in keys;
      SizeOfGenerations(ss, keys - {k});
      var rest := set j | j in keys - {k} :: ss[j].generation;
      assert (set j | j in keys :: ss[j].generation) == rest + {ss[k].generation};
    }
  }

  /** n numbers below n are all of them. */
  lemma {:induction false} AllBelow(gs: set<nat>, n: nat)
    requires |gs| == n && forall g <- gs :: g < n
    ensures forall g: nat | g < n :: g in gs
  {
    forall g: nat | g < n ensures g in gs {
      if g !in gs {
        SizeBelow(gs, n, g);
      }
    }
  }

  lemma {:induction false} SizeBelow(gs: set<nat>, n: nat, hole: nat)
    requires (forall g <- gs :: g < n) && hole < n && hole !in gs
    ensures |gs| < n
  {
    if n - 1 in gs {
      var rest := gs - {n - 1};
      SizeBelow(rest, n - 1, hole);
    } else if hole == n - 1 {
      SizeAtMost(gs, n - 1);
    } else {
      SizeBelow(gs, n - 1, hole);
    }
  }

  lemma {:induction false} SizeAtMost(gs: set<nat>, n: nat)
    requires forall g <- gs :: g < n
    ensures |gs| <= n
  {
    if n > 0 {
      SizeAtMost(gs - {n - 1}, n - 1);
    } else {
      assert forall g <- gs :: g < 0;
      assert gs == {};
    }
  }

  // ----- at most one activity per generation and lesson -----

  function Count(acts: seq<Activity>, x: Activity): nat {
    if acts == [] then 0 else (if acts[0] == x then 1 else 0) + Count(acts[1..], x)
  }

  predicate ActivityCounted(db: Db, x: Activity) {
    if x.enrollment !in db.enrollments then Count(db.activities, x) == 0
    else
      var en := db.enrollments[x.enrollment];
      if x.generation > en.generation then Count(db.activities, x) == 0
      else if x.generation < en.generation then Count(db.activities, x) <= 1
      else Count(db.activities, x) == if L.EverCompleted(en.state, x.lesson) then 1 else 0
  }

  ghost predicate ActivitiesCounted(db: Db) {
    forall x: Activity :: ActivityCounted(db, x)
  }

  lemma {:induction false} CountAppend(acts: seq<Activity>, y: Activity, x: Activity)
    ensures Count(acts + [y], x) == Count(acts, x) + if x == y then 1 else 0
    decreases |acts|
  {
    if acts == [] {
      assert acts + [y] == [y] && [y][1..] == [];
    } else {
      assert (acts + [y])[1..] == acts[1..] + [y];
      CountAppend(acts[1..], y, x);
    }
  }

  /** Steps that write no activity and complete no lesson. */
  predicate SameCompletions(db: Db, db': Db) {
    && db'.activities == db.activities
    && (forall e <- db.enrollments :: e in db'.enrollments && StillCompleted(db.enrollments[e], db'.enrollments[e]))
    && (forall e <- db'.enrollments :: e !in db.enrollments ==> IsNew(db'.enrollments[e]))
  }

  predicate StillCompleted(a: Enrollment, b: Enrollment) {
    (a.generation == b.generation && a.state.lessons == b.state.lessons) || Restarted(a, b)
  }

  lemma SameCompletionsCount(db: Db, db': Db)
    requires ActivitiesCounted(db) && SameCompletions(db, db')
    ensures ActivitiesCounted(db')
  {
    forall x: Activity ensures ActivityCounted(db', x) {
      assert ActivityCounted(db, x);
      if x.enrollment in db.enrollments {
        assert StillCompleted(db.enrollments[x.enrollment], db'.enrollments[x.enrollment]);
      }
    }
  }

  /** Completing a lesson sets its first completion exactly when the activity is written. */
  lemma CompletionMarks(s: L.State, version: Version, lesson: string, completed: bool, now: L.Time, other: string)
    ensures var next := CompletedState(s, version, lesson, completed, now);
            L.EverCompleted(next, other) <==> L.EverCompleted(s, other) || (other == lesson && completed)
  {
    hide AllCompleted;
  }

  lemma CompleteKeepsActivities(db: Db, e: string, lesson: string, c: Completion, now: L.Time)
    requires ActivitiesCounted(db)
    ensures ActivitiesCounted(CompleteTx(db, e, lesson, c, now).0)
  {
    hide CompleteTx, CompletedState, AllCompleted, Latest, L.EverCompleted, L.Completed;
    CompleteWrites(db, e, lesson, c, now);
    var db' := CompleteTx(db, e, lesson, c, now).0;
    if db' != db {
      var en := db.enrollments[e];
      var y := Activity(e, en.generation, lesson);
      forall x: Activity ensures ActivityCounted(db', x) {
        assert ActivityCounted(db, x);
        CountAppend(db.activities, y, x);
        CompletionMarks(en.state, Latest(db, en.course), lesson, c.completed, now, x.lesson);
      }
    }
  }

  lemma StepKeepsActivities(db: Db, a: Action, w: Weights)
    requires ActivitiesCounted(db)
    ensures ActivitiesCounted(Step(db, a, w))
  {
    hide ActivitiesCounted;
    if a.DoComplete? {
      hide CompleteTx;
      CompleteKeepsActivities(db, a.e, a.lesson, a.completion, a.now);
    } else {
      hide Step;
      OtherStepsComplete(db, a, w);
      SameCompletionsCount(db, Step(db, a, w));
    }
  }

  lemma OtherStepsComplete(db: Db, a: Action, w: Weights)
    requires !a.DoComplete?
    ensures SameCompletions(db, Step(db, a, w))
  {
    if ChatAction(a) {
      hide Step;
      ChatKeepsLearning(db, a, w);
    } else {
      hide RestartTx, ReadTx, SnapshotTx, EnrollTx, PublishTx, SameCompletions;
      match a
      case DoPublish(course, version) => PublishCompletes(db, course, version);
      case DoEnroll(user, course, newId) => EnrollCompletes(db, user, course, newId);
      case DoRestart(e, c) => RestartCompletes(db, e, c, w);
      case DoRead(e, g, v, lesson) => ReadCompletes(db, e, g, v, lesson);
      case DoSnapshot(e, c) => SnapshotCompletes(db, e, c);
    }
  }

  lemma PublishCompletes(db: Db, course: string, version: Version)
    ensures SameCompletions(db, PublishTx(db, course, version).0)
  {
    hide Publishable, Remap, OldOrder;
  }

  lemma EnrollCompletes(db: Db, user: string, course: string, newId: string)
    ensures SameCompletions(db, EnrollTx(db, user, course, newId).0)
  {
    hide EnrollTx;
    EnrollWrites(db, user, course, newId);
  }

  lemma RestartCompletes(db: Db, e: string, c: Command, w: Weights)
    ensures SameCompletions(db, RestartTx(db, e, c, w).0)
  {
    hide RestartTx, Consumed, UsagesOf, WithoutEnrollment, Latest;
    RestartWrites(db, e, c, w);
  }

  lemma ReadCompletes(db: Db, e: string, generation: nat, versionId: string, lesson: string)
    ensures SameCompletions(db, ReadTx(db, e, generation, versionId, lesson).0)
  {
    hide ReadTx, OnlyLesson, Latest;
    ReadWrites(db, e, generation, versionId, lesson);
  }

  lemma SnapshotCompletes(db: Db, e: string, c: Command)
    ensures SameCompletions(db, SnapshotTx(db, e, c).0)
  {
    hide SnapshotTx;
    SnapshotWrites(db, e, c);
  }

  lemma {:induction false} RunKeepsActivities(db: Db, run: seq<Action>, w: Weights)
    requires ActivitiesCounted(db)
    ensures ActivitiesCounted(Run(db, run, w))
    decreases |run|
  {
    hide Step, ActivitiesCounted;
    if run != [] {
      StepKeepsActivities(db, run[0], w);
      RunKeepsActivities(Step(db, run[0], w), run[1..], w);
    }
  }

  /** However often lessons are unmarked and marked again, each has one activity in a
      generation, from its first completion on. */
  lemma OneActivityPerLesson(run: seq<Action>, w: Weights, e: string, generation: nat, lesson: string)
    ensures var db := Run(INITIAL, run, w); var n := Count(db.activities, Activity(e, generation, lesson));
            && n <= 1
            && (e in db.enrollments && db.enrollments[e].generation == generation ==>
                  (n == 1 <==> L.EverCompleted(db.enrollments[e].state, lesson)))
  {
    hide Run;
    RunKeepsActivities(INITIAL, run, w);
    assert ActivityCounted(Run(INITIAL, run, w), Activity(e, generation, lesson));
  }
}
