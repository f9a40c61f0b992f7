/** What each transaction on an enrollment does to the rows, field by field, and when it is
    accepted. */
module LearningOutcomes {
  import opened Options
  import opened DraftOrder
  import L = LearningState
  import opened ProgressRemap
  import opened TokenWeights
  import opened Learning
  import opened LearningHistory
  import LearningOnce
  import ReadingPointers
  import ChatRows

  // ----- reachable states -----

  ghost predicate Reached(db: Db, w: Weights) {
    exists run :: Run(INITIAL, run, w) == db
  }

  lemma ReachedFacts(db: Db, w: Weights)
    requires Reached(db, w)
    ensures LearningOnce.Counted(db) && ReadingPointers.PointersOk(db)
  {
    hide Run, LearningOnce.RestartsCounted, LearningOnce.CompletionCounted;
    var run :| Run(INITIAL, run, w) == db;
    LearningOnce.RunKeepsCounted(INITIAL, run, w);
    ReadingPointers.RunKeepsPointers(INITIAL, run, w);
  }

  /** The rows of an enrollment that exists: its snapshots, and a version of its course whose
      lessons are distinct. */
  lemma RowFacts(db: Db, w: Weights, e: string)
    requires Reached(db, w) && e in db.enrollments
    ensures e in db.snapshots && HasVersion(db, e) && NoRepeats(VersionOf(db, e).lessons)
    ensures CompletedKey(db.enrollments[e].generation) in db.snapshots[e] ==> db.enrollments[e].state.completedAt.Some?
  {
    hide LearningOnce.RestartsCounted;
    ReachedFacts(db, w);
    assert ReadingPointers.PointerOk(db, db.enrollments[e]);
  }

  predicate HasVersion(db: Db, e: string) {
    e in db.enrollments && db.enrollments[e].course in db.courses && db.courses[db.enrollments[e].course] != []
  }

  /** The version of its course that was published last. */
  function VersionOf(db: Db, e: string): Version
    requires HasVersion(db, e)
  {
    var vs := db.courses[db.enrollments[e].course];
    vs[|vs| - 1]
  }

  lemma OnlyLessonIff(v: Version, lesson: string)
    requires NoRepeats(v.lessons)
    ensures OnlyLesson(v, lesson) <==> lesson in v.lessons
  {
    if lesson in v.lessons {
      var i :| 0 <= i < |v.lessons| && v.lessons[i] == lesson;
      assert forall j | 0 <= j < |v.lessons| :: v.lessons[j] == lesson ==> j == i;
    }
  }

  // ----- completing a lesson -----

  /** `t` is `s` but for one lesson, which is marked at `at` or unmarked; the time of its first
      completion stays once it is set. */
  predicate OnlyMarkChanges(s: L.State, t: L.State, lesson: string, at: Option<L.Time>) {
    && t.reading == s.reading && t.lessons.Keys == s.lessons.Keys + {lesson}
    && (forall x <- s.lessons :: x != lesson ==> t.lessons[x] == s.lessons[x])
    && t.lessons[lesson].completedAt == at
    && t.lessons[lesson].firstCompletedAt ==
         if lesson in s.lessons && s.lessons[lesson].firstCompletedAt.Some? then s.lessons[lesson].firstCompletedAt else at
  }

  /** A completion marks its lesson and no other.  The course is completed from then on if it
      was before or every lesson of its version is marked now, and not otherwise; the
      COMPLETED snapshot is stored in the step that completes the course, and the activity in
      the one that completes the lesson for the first time. */
  lemma CompletionMeans(db: Db, e: string, lesson: string, c: Completion, now: L.Time)
    requires CompleteTx(db, e, lesson, c, now).0 != db
    ensures HasVersion(db, e) && e in db.snapshots
    ensures var db' := CompleteTx(db, e, lesson, c, now).0; var v := VersionOf(db, e); var en := db.enrollments[e];
            e in db'.enrollments && var s := en.state; var t := db'.enrollments[e].state;
            && OnlyMarkChanges(s, t, lesson, if c.completed then Some(now) else None)
            && (t.completedAt.Some? <==>
                  s.completedAt.Some? || forall x | x in v.lessons :: x in t.lessons && t.lessons[x].completedAt.Some?)
            && (t.completedAt == s.completedAt || t.completedAt == Some(now))
            && (s.completedAt.Some? ==> t.completedAt == s.completedAt)
            && db'.snapshots ==
               (if s.completedAt.None? && t.completedAt.Some? then
                  db.snapshots[e := db.snapshots[e][CompletedKey(en.generation) := Snapshot(en.generation, en.revision + 1, v.id, t)]]
                else db.snapshots)
            && db'.activities ==
               (if c.completed && !(lesson in s.lessons && s.lessons[lesson].firstCompletedAt.Some?)
                then db.activities + [Activity(e, en.generation, lesson)] else db.activities)
            && db'.enrollments == db.enrollments[e := en.(state := t, revision := en.revision + 1)]
            && db'.courses == db.courses
  {
    hide CompleteTx, AllCompleted, CompletedState, OnlyMarkChanges;
    CompleteWrites(db, e, lesson, c, now);
    var s, v := db.enrollments[e].state, VersionOf(db, e);
    CompletedStateMeans(s, v, lesson, c.completed, now);
  }

  lemma CompletedStateMeans(s: L.State, v: Version, lesson: string, completed: bool, now: L.Time)
    ensures var t := CompletedState(s, v, lesson, completed, now);
            && OnlyMarkChanges(s, t, lesson, if completed then Some(now) else None)
            && (t.completedAt.Some? <==>
                  s.completedAt.Some? || forall x | x in v.lessons :: x in t.lessons && t.lessons[x].completedAt.Some?)
            && (t.completedAt == s.completedAt || t.completedAt == Some(now))
            && (s.completedAt.Some? ==> t.completedAt == s.completedAt)
            && (AllCompleted(v, t) <==> forall x | x in v.lessons :: x in t.lessons && t.lessons[x].completedAt.Some?)
  {
    LearningOnce.AllCompletedSame(s, v, lesson, completed, now);
    var t := CompletedState(s, v, lesson, completed, now);
    assert AllCompleted(v, t) ==> forall x | x in v.lessons :: L.Completed(t, x);
  }

  /** In a reachable state a completion is decided by the fence, the version, the lesson and
      the revision alone, and only one that is not met yet is written: the unique constraint
      on COMPLETED snapshots never fires. */
  lemma CompletionIsTakenIff(db: Db, w: Weights, e: string, lesson: string, c: Completion, now: L.Time)
    requires Reached(db, w)
    ensures e !in db.enrollments ==> CompleteTx(db, e, lesson, c, now) == (db, NotFound)
    ensures e in db.enrollments ==>
              && HasVersion(db, e)
              && var (db', outcome) := CompleteTx(db, e, lesson, c, now);
                 var en := db.enrollments[e]; var s := en.state;
                 var met := (lesson in s.lessons && s.lessons[lesson].completedAt.Some?) == c.completed;
                 && outcome == (if !en.active || en.generation != c.generation || VersionOf(db, e).id != c.version then Conflict
                                else if lesson !in VersionOf(db, e).lessons then NotFound
                                else if !met && en.revision != c.revision then Conflict else Done)
                 && (db' != db <==> outcome == Done && !met)
  {
    if e in db.enrollments {
      RowFacts(db, w, e);
      OnlyLessonIff(VersionOf(db, e), lesson);
      AdvanceIsNew(db, e, lesson, c, now);
    }
  }

  lemma AdvanceIsNew(db: Db, e: string, lesson: string, c: Completion, now: L.Time)
    requires HasVersion(db, e) && e in db.snapshots
    requires CompletedKey(db.enrollments[e].generation) in db.snapshots[e] ==> db.enrollments[e].state.completedAt.Some?
    ensures var (db', outcome) := CompleteTx(db, e, lesson, c, now);
            var en := db.enrollments[e]; var met := L.Completed(en.state, lesson) == c.completed;
            && outcome == (if !Current(db, e, c.generation) || VersionOf(db, e).id != c.version then Conflict
                           else if !OnlyLesson(VersionOf(db, e), lesson) then NotFound
                           else if !met && en.revision != c.revision then Conflict else Done)
            && (db' != db <==> outcome == Done && !met)
  {
    hide OnlyLesson, AllCompleted, CompletedState, L.EverCompleted, L.Completed;
  }

  // ----- COMPLETED snapshots over all runs -----

  predicate MarksAll(v: Version, s: L.State) {
    forall x | x in v.lessons :: x in s.lessons && s.lessons[x].completedAt.Some?
  }

  /** `i` is where the version of the snapshot stands among those of the course. */
  predicate CompletesVersion(vs: seq<Version>, s: Snapshot) {
    exists i | 0 <= i < |vs| :: vs[i].id == s.version && MarksAll(vs[i], s.state)
  }

  predicate SnapshotComplete(db: Db, e: string, s: Snapshot) {
    e in db.enrollments && db.enrollments[e].course in db.courses
    && CompletesVersion(db.courses[db.enrollments[e].course], s)
  }

  predicate SnapshotsComplete(db: Db) {
    forall e <- db.snapshots, k <- db.snapshots[e] :: k.CompletedKey? ==> SnapshotComplete(db, e, db.snapshots[e][k])
  }

  /** Versions are only added, enrollments keep their course, and no COMPLETED snapshot is new. */
  predicate KeepsCompleted(db: Db, db': Db) {
    && (forall c <- db.courses :: c in db'.courses && db.courses[c] <= db'.courses[c])
    && (forall e <- db.enrollments :: e in db'.enrollments && db'.enrollments[e].course == db.enrollments[e].course)
    && (forall e <- db'.snapshots, k <- db'.snapshots[e] :: k.CompletedKey? ==>
          e in db.snapshots && k in db.snapshots[e] && db.snapshots[e][k] == db'.snapshots[e][k])
  }

  lemma KeepsComplete(db: Db, db': Db)
    requires SnapshotsComplete(db) && KeepsCompleted(db, db')
    ensures SnapshotsComplete(db')
  {
    hide MarksAll;
    forall e, k | e in db'.snapshots && k in db'.snapshots[e] && k.CompletedKey?
      ensures SnapshotComplete(db', e, db'.snapshots[e][k])
    {
      assert SnapshotComplete(db, e, db.snapshots[e][k]);
      var vs, s := db.courses[db.enrollments[e].course], db.snapshots[e][k];
      var i :| 0 <= i < |vs| && vs[i].id == s.version && MarksAll(vs[i], s.state);
      assert db'.courses[db'.enrollments[e].course][i] == vs[i];
    }
  }

  lemma CompleteKeepsComplete(db: Db, e: string, lesson: string, c: Completion, now: L.Time)
    requires SnapshotsComplete(db)
    ensures SnapshotsComplete(CompleteTx(db, e, lesson, c, now).0)
  {
    hide CompleteTx, SnapshotsComplete, OnlyMarkChanges;
    var db' := CompleteTx(db, e, lesson, c, now).0;
    if db' != db {
      CompletionMeans(db, e, lesson, c, now);
      NewIsComplete(db, db', e);
    }
  }

  lemma NewIsComplete(db: Db, db': Db, e: string)
    requires SnapshotsComplete(db) && HasVersion(db, e) && e in db.snapshots && e in db'.enrollments
    requires var v := VersionOf(db, e); var en := db.enrollments[e]; var t := db'.enrollments[e].state;
             && (t.completedAt.Some? <==> en.state.completedAt.Some? || MarksAll(v, t))
             && db'.snapshots ==
                (if en.state.completedAt.None? && t.completedAt.Some? then
                   db.snapshots[e := db.snapshots[e][CompletedKey(en.generation) := Snapshot(en.generation, en.revision + 1, v.id, t)]]
                 else db.snapshots)
             && db'.enrollments == db.enrollments[e := en.(state := t, revision := en.revision + 1)] && db'.courses == db.courses
    ensures SnapshotsComplete(db')
  {
    hide MarksAll;
    forall x, k | x in db'.snapshots && k in db'.snapshots[x] && k.CompletedKey?
      ensures SnapshotComplete(db', x, db'.snapshots[x][k])
    {
      if x in db.snapshots && k in db.snapshots[x] && db.snapshots[x][k] == db'.snapshots[x][k] {
        assert SnapshotComplete(db, x, db.snapshots[x][k]);
      } else {
        var vs := db.courses[db.enrollments[e].course];
        assert vs[|vs| - 1].id == db'.snapshots[x][k].version && MarksAll(vs[|vs| - 1], db'.snapshots[x][k].state);
      }
    }
  }

  lemma OthersKeepCompleted(db: Db, a: Action, w: Weights)
    requires !a.DoComplete?
    ensures KeepsCompleted(db, Step(db, a, w))
  {
    if ChatAction(a) {
      hide Step;
      ChatKeepsLearning(db, a, w);
    } else {
      hide RestartTx, ReadTx, SnapshotTx, EnrollTx, PublishTx, KeepsCompleted;
      match a
      case DoPublish(course, version) => PublishKeepsCompleted(db, course, version);
      case DoEnroll(user, course, newId) => EnrollKeepsCompleted(db, user, course, newId);
      case DoRestart(e, c) => RestartKeepsCompleted(db, e, c, w);
      case DoRead(e, g, v, lesson) => ReadKeepsCompleted(db, e, g, v, lesson);
      case DoSnapshot(e, c) => SnapshotKeepsCompleted(db, e, c);
    }
  }

  lemma PublishKeepsCompleted(db: Db, course: string, version: Version)
    ensures KeepsCompleted(db, PublishTx(db, course, version).0)
  {
    hide Publishable, Remap, OldOrder, L.RemapReadingPosition;
  }

  lemma EnrollKeepsCompleted(db: Db, user: string, course: string, newId: string)
    ensures KeepsCompleted(db, EnrollTx(db, user, course, newId).0)
  {
    hide EnrollTx;
    EnrollWrites(db, user, course, newId);
  }

  lemma RestartKeepsCompleted(db: Db, e: string, c: Command, w: Weights)
    ensures KeepsCompleted(db, RestartTx(db, e, c, w).0)
  {
    hide RestartTx, Consumed, UsagesOf, WithoutEnrollment, Latest;
    RestartWrites(db, e, c, w);
  }

  lemma ReadKeepsCompleted(db: Db, e: string, generation: nat, versionId: string, lesson: string)
    ensures KeepsCompleted(db, ReadTx(db, e, generation, versionId, lesson).0)
  {
    hide ReadTx, OnlyLesson, Latest;
    ReadWrites(db, e, generation, versionId, lesson);
  }

  lemma SnapshotKeepsCompleted(db: Db, e: string, c: Command)
    ensures KeepsCompleted(db, SnapshotTx(db, e, c).0)
  {
    hide SnapshotTx;
    SnapshotWrites(db, e, c);
  }

  lemma {:induction false} RunKeepsComplete(db: Db, run: seq<Action>, w: Weights)
    requires SnapshotsComplete(db)
    ensures SnapshotsComplete(Run(db, run, w))
    decreases |run|
  {
    hide Step, SnapshotsComplete;
    if run != [] {
      var a := run[0];
      if a.DoComplete? {
        CompleteKeepsComplete(db, a.e, a.lesson, a.completion, a.now);
        CompleteIsStep(db, a, w);
      } else {
        OthersKeepCompleted(db, a, w);
        KeepsComplete(db, Step(db, a, w));
      }
      RunKeepsComplete(Step(db, a, w), run[1..], w);
    }
  }

  lemma CompleteIsStep(db: Db, a: Action, w: Weights)
    requires a.DoComplete?
    ensures Step(db, a, w) == CompleteTx(db, a.e, a.lesson, a.completion, a.now).0
  {
    hide CompleteTx;
  }

  /** After any run the state of every COMPLETED snapshot marks each lesson of the version it
      names, one of those of the course. */
  lemma CompletedSnapshotsMarkEveryLesson(run: seq<Action>, w: Weights, e: string, generation: nat)
    ensures var db := Run(INITIAL, run, w); var k := CompletedKey(generation);
            e in db.snapshots && k in db.snapshots[e] ==>
              && e in db.enrollments && db.enrollments[e].course in db.courses
              && var s := db.snapshots[e][k]; var vs := db.courses[db.enrollments[e].course];
                 exists i | 0 <= i < |vs| :: vs[i].id == s.version
                   && forall x | x in vs[i].lessons :: x in s.state.lessons && s.state.lessons[x].completedAt.Some?
  {
    hide Run;
    RunKeepsComplete(INITIAL, run, w);
    var db, k := Run(INITIAL, run, w), CompletedKey(generation);
    if e in db.snapshots && k in db.snapshots[e] {
      CompletedIsComplete(db, e, k);
    }
  }

  lemma CompletedIsComplete(db: Db, e: string, k: Key)
    requires SnapshotsComplete(db) && k.CompletedKey? && e in db.snapshots && k in db.snapshots[e]
    ensures SnapshotComplete(db, e, db.snapshots[e][k])
  {
  }

  // ----- reading -----

  /** In a reachable state a reading command is decided by the fence, the version and the lesson;
      it moves the pointer to its lesson, under the next revision, and nothing else. */
  lemma ReadingMeans(db: Db, w: Weights, e: string, generation: nat, versionId: string, lesson: string)
    requires Reached(db, w)
    ensures e !in db.enrollments ==> ReadTx(db, e, generation, versionId, lesson) == (db, NotFound)
    ensures e in db.enrollments ==>
              && HasVersion(db, e)
              && var (db', outcome) := ReadTx(db, e, generation, versionId, lesson); var en := db.enrollments[e];
                 && outcome == (if !en.active || en.generation != generation || VersionOf(db, e).id != versionId then Conflict
                                else if lesson !in VersionOf(db, e).lessons then NotFound else Done)
                 && db'.enrollments ==
                    (if outcome == Done && en.state.reading != Some(lesson)
                     then db.enrollments[e := en.(state := en.state.(reading := Some(lesson)), revision := en.revision + 1)]
                     else db.enrollments)
                 && db' == db.(enrollments := db'.enrollments, seen := db'.seen)
  {
    if e in db.enrollments {
      RowFacts(db, w, e);
      OnlyLessonIff(VersionOf(db, e), lesson);
      ReadingMoves(db, e, generation, versionId, lesson);
    }
  }

  lemma ReadingMoves(db: Db, e: string, generation: nat, versionId: string, lesson: string)
    requires HasVersion(db, e)
    ensures var (db', outcome) := ReadTx(db, e, generation, versionId, lesson); var en := db.enrollments[e];
            && outcome == (if !Current(db, e, generation) || VersionOf(db, e).id != versionId then Conflict
                           else if !OnlyLesson(VersionOf(db, e), lesson) then NotFound else Done)
            && db'.enrollments ==
               (if outcome == Done && en.state.reading != Some(lesson)
                then db.enrollments[e := en.(state := en.state.(reading := Some(lesson)), revision := en.revision + 1)]
                else db.enrollments)
            && db' == db.(enrollments := db'.enrollments, seen := db'.seen)
  {
    hide OnlyLesson;
  }

  // ----- snapshots and restarts -----

  /** How a restart or snapshot command under a key is answered. */
  function Answer(db: Db, e: string, key: Key, c: Command): Outcome
    requires HasVersion(db, e) && e in db.snapshots
  {
    var en := db.enrollments[e];
    if key in db.snapshots[e] then
      var s := db.snapshots[e][key];
      if (s.generation, s.revision, s.version) == (c.generation, c.revision, c.version) then Replay else Conflict
    else if (en.generation, en.revision, VersionOf(db, e).id) == (c.generation, c.revision, c.version) then Done
    else Conflict
  }

  /** The snapshots after the present state has been stored under a key. */
  function Stored(db: Db, e: string, key: Key): map<string, map<Key, Snapshot>>
    requires HasVersion(db, e) && e in db.snapshots
  {
    var en := db.enrollments[e];
    db.snapshots[e := db.snapshots[e][key := Snapshot(en.generation, en.revision, VersionOf(db, e).id, en.state)]]
  }

  /** A snapshot command stores the present state under its request, once, and nothing else. */
  lemma SnapshotMeans(db: Db, w: Weights, e: string, c: Command)
    requires Reached(db, w)
    ensures e !in db.enrollments ==> SnapshotTx(db, e, c) == (db, NotFound)
    ensures e in db.enrollments ==>
              && HasVersion(db, e) && e in db.snapshots
              && var (db', outcome) := SnapshotTx(db, e, c);
                 && outcome == Answer(db, e, ManualKey(c.request), c)
                 && db' == if outcome == Done then db.(snapshots := Stored(db, e, ManualKey(c.request))) else db
  {
    if e in db.enrollments {
      RowFacts(db, w, e);
    }
  }

  /** A restart stores the present state under its request and begins the next generation:
      nothing read, no lesson marked, inactive like every other course of the user, on the
      newest version, and without the chat of the generation that ends. */
  lemma RestartMeans(db: Db, w: Weights, e: string, c: Command)
    requires Reached(db, w)
    ensures e !in db.enrollments ==> RestartTx(db, e, c, w) == (db, NotFound)
    ensures e in db.enrollments ==>
              && HasVersion(db, e) && e in db.snapshots
              && var (db', outcome) := RestartTx(db, e, c, w); var en := db.enrollments[e];
                 && outcome == Answer(db, e, RestartKey(c.request), c)
                 && (outcome != Done ==> db' == db)
                 && (outcome == Done ==>
                       && db'.snapshots == Stored(db, e, RestartKey(c.request))
                       && db'.enrollments.Keys == db.enrollments.Keys
                       && db'.enrollments[e] == Enrollment(en.user, en.course, VersionOf(db, e).id, en.generation + 1, 0, false,
                                                           L.State(None, map[], None))
                       && (forall x <- db.enrollments :: x != e ==>
                             db'.enrollments[x] == db.enrollments[x].(active := db.enrollments[x].active && db.enrollments[x].user != en.user))
                       && OthersMessages(db.messages, db'.messages, e)
                       && db'.courses == db.courses && db'.activities == db.activities && db'.pending == db.pending)
  {
    if e in db.enrollments {
      hide Settle, NextGeneration, OthersMessages;
      RowFacts(db, w, e);
      if RestartTx(db, e, c, w).1 == Done {
        RestartRows(db, e, c, w);
      }
    }
  }

  /** The rows of all other enrollments are left, each as often as before, and no others. */
  ghost predicate OthersMessages(before: seq<Message>, after: seq<Message>, e: string) {
    forall m: Message :: multiset(after)[m] == if m.request.enrollment == e then 0 else multiset(before)[m]
  }

  lemma {:induction false} WithoutIsOthers(ms: seq<Message>, e: string)
    ensures OthersMessages(ms, WithoutEnrollment(ms, e), e)
    decreases |ms|
  {
    if ms != [] {
      WithoutIsOthers(ms[1..], e);
      assert ms == [ms[0]] + ms[1..];
    }
  }

  lemma RestartRows(db: Db, e: string, c: Command, w: Weights)
    requires HasVersion(db, e) && e in db.snapshots && RestartTx(db, e, c, w).1 == Done
    ensures var db' := RestartTx(db, e, c, w).0; var en := db.enrollments[e];
            && db'.snapshots == Stored(db, e, RestartKey(c.request))
            && db'.enrollments.Keys == db.enrollments.Keys
            && db'.enrollments[e] == Enrollment(en.user, en.course, VersionOf(db, e).id, en.generation + 1, 0, false,
                                                L.State(None, map[], None))
            && (forall x <- db.enrollments :: x != e ==>
                  db'.enrollments[x] == db.enrollments[x].(active := db.enrollments[x].active && db.enrollments[x].user != en.user))
            && OthersMessages(db.messages, db'.messages, e)
            && db'.courses == db.courses && db'.activities == db.activities && db'.pending == db.pending
  {
    hide RestartTx, Settle, NextGeneration, UsagesOf, WithoutEnrollment, Consumed, OthersMessages;
    WithoutIsOthers(db.messages, e);
    RestartIsDone(db, e, c, w);
    var db1 := db.(snapshots := Stored(db, e, RestartKey(c.request)));
    ChatRows.SettleShape(db1, e, w);
    SettleLeaves(db1, e, w);
    NextRows(Settle(db1, e, w), e);
  }

  lemma RestartIsDone(db: Db, e: string, c: Command, w: Weights)
    requires HasVersion(db, e) && e in db.snapshots && RestartTx(db, e, c, w).1 == Done
    ensures var db1 := db.(snapshots := Stored(db, e, RestartKey(c.request)));
            RestartTx(db, e, c, w).0 == NextGeneration(Settle(db1, e, w), e)
  {
    hide Settle, NextGeneration;
  }

  lemma SettleLeaves(db: Db, e: string, w: Weights)
    requires e in db.enrollments
    ensures Settle(db, e, w).activities == db.activities
  {
    hide UsagesOf, WithoutEnrollment, Consumed;
  }

  lemma NextRows(db: Db, e: string)
    requires HasVersion(db, e)
    ensures var rows := NextGeneration(db, e).enrollments; var en := db.enrollments[e];
            && rows.Keys == db.enrollments.Keys
            && rows[e] == Enrollment(en.user, en.course, VersionOf(db, e).id, en.generation + 1, 0, false, L.State(None, map[], None))
            && (forall x <- db.enrollments :: x != e ==>
                  rows[x] == db.enrollments[x].(active := db.enrollments[x].active && db.enrollments[x].user != en.user))
            && NextGeneration(db, e) == db.(enrollments := rows, seen := NextGeneration(db, e).seen)
  {
  }

  // ----- enrolling -----

  /** Enrolling makes the course active on its newest version, in the row the user has for it
      or in a new one that starts empty, and every other course of the user inactive. */
  lemma EnrollMeans(db: Db, user: string, course: string, newId: string)
    ensures course !in db.courses || db.courses[course] == [] ==> EnrollTx(db, user, course, newId) == (db, NotFound)
    ensures course in db.courses && db.courses[course] != [] ==>
              var (db', outcome) := EnrollTx(db, user, course, newId);
              var vs := db.courses[course]; var v := vs[|vs| - 1].id;
              var has := exists x <- db.enrollments :: db.enrollments[x].user == user && db.enrollments[x].course == course;
              && outcome == (if !has && newId in db.enrollments then Conflict else Done)
              && (outcome != Done ==> db' == db)
              && (outcome == Done ==>
                    && db'.enrollments.Keys == (if has then db.enrollments.Keys else db.enrollments.Keys + {newId})
                    && (forall x <- db.enrollments ::
                          db'.enrollments[x] == (if db.enrollments[x].user != user then db.enrollments[x]
                                                 else if db.enrollments[x].course != course then db.enrollments[x].(active := false)
                                                 else db.enrollments[x].(active := true, version := v)))
                    && (!has ==> db'.enrollments[newId] == Enrollment(user, course, v, 0, 0, true, L.State(None, map[], None))
                                 && db'.snapshots == db.snapshots[newId := map[]])
                    && (has ==> db'.snapshots == db.snapshots)
                    && SameElse(db, db'))
  {
    if course in db.courses && db.courses[course] != [] {
      EnrollRows(db, user, course, newId);
    }
  }

  lemma EnrollRows(db: Db, user: string, course: string, newId: string)
    requires Published(db, course)
    ensures var (db', outcome) := EnrollTx(db, user, course, newId); var v := Latest(db, course).id;
            var has := exists x <- db.enrollments :: db.enrollments[x].user == user && db.enrollments[x].course == course;
            && outcome == (if !has && newId in db.enrollments then Conflict else Done)
            && (outcome != Done ==> db' == db)
            && (outcome == Done ==>
                  && db'.enrollments.Keys == (if has then db.enrollments.Keys else db.enrollments.Keys + {newId})
                  && (forall x <- db.enrollments ::
                        db'.enrollments[x] == (if db.enrollments[x].user != user then db.enrollments[x]
                                               else if db.enrollments[x].course != course then db.enrollments[x].(active := false)
                                               else db.enrollments[x].(active := true, version := v)))
                  && (!has ==> db'.enrollments[newId] == Enrollment(user, course, v, 0, 0, true, L.State(None, map[], None))
                               && db'.snapshots == db.snapshots[newId := map[]])
                  && (has ==> db'.snapshots == db.snapshots)
                  && SameElse(db, db'))
  {
    hide Latest;
    var others := Deactivate(db.enrollments, user);
    assert others.Keys == db.enrollments.Keys;
  }

  /** A user has one enrollment for a course, and at most one that is active. */
  predicate OneActive(enrollments: map<string, Enrollment>) {
    forall x, y | x in enrollments && y in enrollments && x != y && enrollments[x].user == enrollments[y].user ::
      enrollments[x].course != enrollments[y].course && !(enrollments[x].active && enrollments[y].active)
  }

  /** Rows that keep user and course, and are active only if they were. */
  lemma KeepsOneActive(a: map<string, Enrollment>, b: map<string, Enrollment>)
    requires OneActive(a) && b.Keys == a.Keys
    requires forall x <- a :: b[x].user == a[x].user && b[x].course == a[x].course && (b[x].active ==> a[x].active)
    ensures OneActive(b)
  {
  }

  lemma EnrollKeepsOneActive(db: Db, user: string, course: string, newId: string)
    requires OneActive(db.enrollments)
    ensures OneActive(EnrollTx(db, user, course, newId).0.enrollments)
  {
    hide EnrollTx;
    EnrollMeans(db, user, course, newId);
  }

  lemma StepKeepsOneActive(db: Db, a: Action, w: Weights)
    requires OneActive(db.enrollments)
    ensures OneActive(Step(db, a, w).enrollments)
  {
    if ChatAction(a) {
      hide Step;
      ChatKeepsLearning(db, a, w);
    } else {
      hide RestartTx, ReadTx, SnapshotTx, EnrollTx, PublishTx, CompleteTx, OneActive;
      match a
      case DoEnroll(user, course, newId) => EnrollKeepsOneActive(db, user, course, newId);
      case _ =>
        NoneIsActivated(db, a, w);
        KeepsOneActive(db.enrollments, Step(db, a, w).enrollments);
    }
  }

  lemma NoneIsActivated(db: Db, a: Action, w: Weights)
    requires !ChatAction(a) && !a.DoEnroll?
    ensures var rows := Step(db, a, w).enrollments;
            && rows.Keys == db.enrollments.Keys
            && forall x <- rows :: rows[x].user == db.enrollments[x].user && rows[x].course == db.enrollments[x].course
                                   && (rows[x].active ==> db.enrollments[x].active)
  {
    hide RestartTx, ReadTx, SnapshotTx, PublishTx, CompleteTx;
    match a
    case DoPublish(course, version) => PublishActivatesNone(db, course, version);
    case DoRestart(e, c) => RestartActivatesNone(db, e, c, w);
    case DoComplete(e, lesson, c, now) => CompleteActivatesNone(db, e, lesson, c, now);
    case DoRead(e, g, v, lesson) => ReadWrites(db, e, g, v, lesson);
    case DoSnapshot(e, c) => SnapshotWrites(db, e, c);
  }

  lemma PublishActivatesNone(db: Db, course: string, version: Version)
    ensures var rows := PublishTx(db, course, version).0.enrollments;
            && rows.Keys == db.enrollments.Keys
            && forall x <- rows :: rows[x] == db.enrollments[x].(state := rows[x].state, revision := rows[x].revision)
  {
    hide Publishable, Remap, OldOrder, L.RemapReadingPosition;
  }

  lemma RestartActivatesNone(db: Db, e: string, c: Command, w: Weights)
    ensures var rows := RestartTx(db, e, c, w).0.enrollments;
            && rows.Keys == db.enrollments.Keys
            && forall x <- rows :: rows[x].user == db.enrollments[x].user && rows[x].course == db.enrollments[x].course
                                   && (rows[x].active ==> db.enrollments[x].active)
  {
    hide RestartTx, Consumed, UsagesOf, WithoutEnrollment, Latest;
    RestartWrites(db, e, c, w);
  }

  lemma CompleteActivatesNone(db: Db, e: string, lesson: string, c: Completion, now: L.Time)
    ensures var rows := CompleteTx(db, e, lesson, c, now).0.enrollments;
            && rows.Keys == db.enrollments.Keys
            && forall x <- rows :: rows[x] == db.enrollments[x].(state := rows[x].state, revision := rows[x].revision)
  {
    hide CompleteTx, AllCompleted, CompletedState;
    CompleteWrites(db, e, lesson, c, now);
  }

  lemma {:induction false} RunKeepsOneActive(db: Db, run: seq<Action>, w: Weights)
    requires OneActive(db.enrollments)
    ensures OneActive(Run(db, run, w).enrollments)
    decreases |run|
  {
    hide Step, OneActive;
    if run != [] {
      StepKeepsOneActive(db, run[0], w);
      RunKeepsOneActive(Step(db, run[0], w), run[1..], w);
    }
  }

  /** After any run a user has at most one enrollment for each course and at most one active. */
  lemma OneActivePerUser(run: seq<Action>, w: Weights, x: string, y: string)
    ensures var rows := Run(INITIAL, run, w).enrollments;
            x in rows && y in rows && x != y && rows[x].user == rows[y].user ==>
              rows[x].course != rows[y].course && !(rows[x].active && rows[y].active)
  {
    hide Run;
    RunKeepsOneActive(INITIAL, run, w);
  }

  // ----- publishing -----

  /** A version with lessons of distinct, non-empty ids and an id of its own is added to its
      course; every other course and every other enrollment stays as it is, and so does a
      pointer that is empty or at a retained lesson.  A pointer at a removed lesson moves to
      the nearest later lesson that was retained, or else to the last lesson of the new
      version, under the next revision. */
  lemma PublishMeans(db: Db, w: Weights, course: string, version: Version)
    requires Reached(db, w)
    ensures var (db', outcome) := PublishTx(db, course, version);
            && (outcome == Done <==>
                  && version.lessons != [] && "" !in version.lessons
                  && (forall i, j | 0 <= i < j < |version.lessons| :: version.lessons[i] != version.lessons[j])
                  && (forall c <- db.courses, v | v in db.courses[c] :: v.id != version.id))
            && (outcome != Done ==> db' == db)
            && (outcome == Done ==>
                  && db'.courses == db.courses[course := (if course in db.courses then db.courses[course] else []) + [version]]
                  && db' == db.(courses := db'.courses, enrollments := db'.enrollments, seen := db'.seen)
                  && db'.enrollments.Keys == db.enrollments.Keys
                  && forall e <- db.enrollments :: PointerMoves(db, db.enrollments[e], db'.enrollments[e], course, version.lessons))
  {
    hide Publishable, PublishTx, PointerMoves;
    PublishAdds(db, course, version);
    PublishableMeans(db, version);
    ReachedFacts(db, w);
    if PublishTx(db, course, version).1 == Done {
      forall e | e in db.enrollments
        ensures PointerMoves(db, db.enrollments[e], PublishTx(db, course, version).0.enrollments[e], course, version.lessons)
      {
        assert ReadingPointers.PointerOk(db, db.enrollments[e]);
        PublishMoves(db, course, version, e);
      }
    }
  }

  predicate PointerMoves(db: Db, a: Enrollment, b: Enrollment, course: string, lessons: seq<string>) {
    if a.course != course || a.state.reading.None? || a.state.reading.value in lessons then b == a
    else
      && course in db.courses && db.courses[course] != [] && lessons != []
      && b.state.reading.Some? && b == a.(state := a.state.(reading := b.state.reading), revision := a.revision + 1)
      && var vs := db.courses[course];
         GoesToNext(vs[|vs| - 1].lessons, lessons, a.state.reading.value, b.state.reading.value)
  }

  /** From `c`, which is removed, to `d`: the nearest later lesson that is retained, or the end. */
  predicate GoesToNext(before: seq<string>, after: seq<string>, c: string, d: string)
    requires after != []
  {
    exists i | 0 <= i < |before| :: before[i] == c &&
      ((exists k | i < k < |before| :: before[k] == d && d in after && forall j | i < j < k :: before[j] !in after)
       || (d == after[|after| - 1] && forall j | i < j < |before| :: before[j] !in after))
  }

  lemma {:induction false} NextByPosition(before: seq<string>, after: seq<string>, i: nat)
    requires i <= |before|
    ensures match NextRetained(before, i, after)
            case Some(d) => exists k | i <= k < |before| :: before[k] == d && d in after && forall j | i <= j < k :: before[j] !in after
            case None => forall j | i <= j < |before| :: before[j] !in after
    decreases |before| - i
  {
    if i < |before| {
      if before[i] in after {
        assert before[i] == NextRetained(before, i, after).value;
      } else {
        NextByPosition(before, after, i + 1);
      }
    }
  }

  lemma ReplacementIsNext(before: seq<string>, after: seq<string>, c: string)
    requires after != [] && NoRepeats(before) && c in before && c !in after
    ensures c in Remap(before, after) && GoesToNext(before, after, c, Remap(before, after)[c])
  {
    hide NextRetained;
    var i := Rank(before, c);
    NextByPosition(before, after, i + 1);
    assert before[i] == c;
  }

  lemma PublishableMeans(db: Db, version: Version)
    ensures Publishable(db, version) <==>
              && version.lessons != [] && "" !in version.lessons
              && (forall i, j | 0 <= i < j < |version.lessons| :: version.lessons[i] != version.lessons[j])
              && (forall c <- db.courses, v | v in db.courses[c] :: v.id != version.id)
  {
  }

  lemma PublishAdds(db: Db, course: string, version: Version)
    ensures var (db', outcome) := PublishTx(db, course, version);
            && (outcome == Done <==> Publishable(db, version)) && (outcome != Done ==> db' == db)
            && (outcome == Done ==>
                  && db'.courses == db.courses[course := (if course in db.courses then db.courses[course] else []) + [version]]
                  && db' == db.(courses := db'.courses, enrollments := db'.enrollments, seen := db'.seen)
                  && db'.enrollments.Keys == db.enrollments.Keys)
  {
    hide Publishable, Remap, OldOrder, Remapped, Records;
  }

  lemma PublishMoves(db: Db, course: string, version: Version, e: string)
    requires PublishTx(db, course, version).1 == Done && e in db.enrollments && ReadingPointers.PointerOk(db, db.enrollments[e])
    requires ReadingPointers.PointersOk(db) && version.lessons != [] && "" !in version.lessons
    ensures PointerMoves(db, db.enrollments[e], PublishTx(db, course, version).0.enrollments[e], course, version.lessons)
  {
    hide Publishable, GoesToNext, Replacement, NoRepeats;
    var en := db.enrollments[e];
    if en.course == course {
      var before := Latest(db, course).lessons;
      assert ReadingPointers.GoodVersion(Latest(db, course));
      RemapIsTotal(before, version.lessons);
      if en.state.reading.Some? && en.state.reading.value !in version.lessons {
        ReplacementIsNext(before, version.lessons, en.state.reading.value);
      }
    }
  }
}
