/** Reading pointers stay lessons of the latest published version. */
module ReadingPointers {
  import opened Options
  import opened DraftOrder
  import L = LearningState
  import opened ProgressRemap
  import opened TokenWeights
  import opened Learning
  import opened LearningHistory
  import LearningOnce

  predicate GoodVersion(v: Version) {
    v.lessons != [] && NoRepeats(v.lessons) && "" !in v.lessons
  }

  predicate PointerOk(db: Db, en: Enrollment) {
    Published(db, en.course) && (en.state.reading.Some? ==> en.state.reading.value in Latest(db, en.course).lessons)
  }

  predicate PointersOk(db: Db) {
    && (forall c <- db.courses :: Published(db, c) && GoodVersion(Latest(db, c)))
    && (forall e <- db.enrollments :: PointerOk(db, db.enrollments[e]))
  }

  /** A pointer at a lesson of the old version follows the remap into the new one. */
  lemma RemapLands(s: L.State, oldOrder: seq<string>, newOrder: seq<string>)
    requires newOrder != [] && "" !in newOrder && "" !in oldOrder
    requires s.reading.Some? ==> s.reading.value in oldOrder
    ensures var t := L.RemapReadingPosition(s, Remap(oldOrder, newOrder));
            && t.reading == (if s.reading.Some? then Some(Follow(oldOrder, newOrder, s.reading.value)) else None)
            && (t.reading.Some? ==> t.reading.value in newOrder)
  {
    hide Replacement;
    RemapIsTotal(oldOrder, newOrder);
  }

  lemma PublishKeepsPointers(db: Db, course: string, version: Version)
    requires PointersOk(db)
    ensures PointersOk(PublishTx(db, course, version).0)
  {
    hide Remap, L.RemapReadingPosition, NoRepeats;
    var db' := PublishTx(db, course, version).0;
    if Publishable(db, version) {
      var before := OldOrder(db, course);
      assert db'.courses[course][|db'.courses[course]| - 1] == version;
      forall e | e in db'.enrollments ensures PointerOk(db', db'.enrollments[e]) {
        var en := db.enrollments[e];
        assert PointerOk(db, en);
        if en.course == course {
          RemapLands(en.state, before, version.lessons);
        }
      }
    }
  }

  lemma AdvanceKeepsPointers(db: Db, e: string, state: L.State)
    requires PointersOk(db) && e in db.enrollments
    requires PointerOk(db, db.enrollments[e].(state := state))
    ensures PointersOk(Advance(db, e, state))
  {
    var db' := Advance(db, e, state);
    forall x | x in db'.enrollments ensures PointerOk(db', db'.enrollments[x]) {
      assert PointerOk(db, db.enrollments[x]);
    }
  }

  /** Steps that keep courses, and every pointer or none. */
  lemma SamePointers(db: Db, db': Db)
    requires PointersOk(db) && db'.courses == db.courses
    requires forall e <- db'.enrollments ::
               Published(db, db'.enrollments[e].course)
               && (db'.enrollments[e].state.reading.None?
                   || (e in db.enrollments && db'.enrollments[e].course == db.enrollments[e].course
                       && db'.enrollments[e].state.reading == db.enrollments[e].state.reading))
    ensures PointersOk(db')
  {
    hide GoodVersion;
    forall e | e in db'.enrollments ensures PointerOk(db', db'.enrollments[e]) {
      assert e in db.enrollments ==> PointerOk(db, db.enrollments[e]);
    }
    forall c | c in db'.courses ensures Published(db', c) && GoodVersion(Latest(db', c)) {
      assert Latest(db', c) == Latest(db, c);
    }
  }

  lemma EnrollKeepsPointers(db: Db, user: string, course: string, newId: string)
    requires PointersOk(db)
    ensures PointersOk(EnrollTx(db, user, course, newId).0)
  {
    hide PointersOk, EnrollTx;
    EnrollWrites(db, user, course, newId);
    PointersPublished(db);
    SamePointers(db, EnrollTx(db, user, course, newId).0);
  }

  lemma PointersPublished(db: Db)
    requires PointersOk(db)
    ensures forall e <- db.enrollments :: Published(db, db.enrollments[e].course)
  {
    forall e | e in db.enrollments ensures Published(db, db.enrollments[e].course) {
      assert PointerOk(db, db.enrollments[e]);
    }
  }

  lemma RestartKeepsPointers(db: Db, e: string, c: Command, w: Weights)
    requires PointersOk(db)
    ensures PointersOk(RestartTx(db, e, c, w).0)
  {
    hide RestartTx, Consumed, UsagesOf, WithoutEnrollment, Latest, PointersOk;
    RestartWrites(db, e, c, w);
    PointersPublished(db);
    SamePointers(db, RestartTx(db, e, c, w).0);
  }

  lemma CompleteKeepsPointers(db: Db, e: string, lesson: string, c: Completion, now: L.Time)
    requires PointersOk(db)
    ensures PointersOk(CompleteTx(db, e, lesson, c, now).0)
  {
    hide CompleteTx, CompletedState, AllCompleted, Latest, L.EverCompleted, L.Completed, PointersOk;
    CompleteWrites(db, e, lesson, c, now);
    PointersPublished(db);
    if CompleteTx(db, e, lesson, c, now).0 != db {
      LearningOnce.AllCompletedSame(db.enrollments[e].state, Latest(db, db.enrollments[e].course), lesson, c.completed, now);
      SamePointers(db, CompleteTx(db, e, lesson, c, now).0);
    }
  }

  lemma ReadKeepsPointers(db: Db, e: string, generation: nat, versionId: string, lesson: string)
    requires PointersOk(db)
    ensures PointersOk(ReadTx(db, e, generation, versionId, lesson).0)
  {
    hide ReadTx, PointersOk;
    ReadWrites(db, e, generation, versionId, lesson);
    if ReadTx(db, e, generation, versionId, lesson).0 != db {
      AdvanceKeepsPointers(db, e, L.SetReadingPosition(db.enrollments[e].state, lesson));
    }
  }

  lemma SnapshotKeepsPointers(db: Db, e: string, c: Command)
    requires PointersOk(db)
    ensures PointersOk(SnapshotTx(db, e, c).0)
  {
    hide SnapshotTx, PointersOk;
    SnapshotWrites(db, e, c);
    PointersPublished(db);
    SamePointers(db, SnapshotTx(db, e, c).0);
  }

  lemma StepKeepsPointers(db: Db, a: Action, w: Weights)
    requires PointersOk(db)
    ensures PointersOk(Step(db, a, w))
  {
    hide PointersOk;
    if ChatAction(a) {
      hide Step;
      ChatKeepsLearning(db, a, w);
      PointersPublished(db);
      SamePointers(db, Step(db, a, w));
    } else {
      hide EnrollTx, RestartTx, CompleteTx, ReadTx, PublishTx, SnapshotTx;
      match a
      case DoPublish(course, version) => PublishKeepsPointers(db, course, version);
      case DoEnroll(user, course, newId) => EnrollKeepsPointers(db, user, course, newId);
      case DoRestart(e, c) => RestartKeepsPointers(db, e, c, w);
      case DoComplete(e, lesson, c, now) => CompleteKeepsPointers(db, e, lesson, c, now);
      case DoRead(e, g, v, lesson) => ReadKeepsPointers(db, e, g, v, lesson);
      case DoSnapshot(e, c) => SnapshotKeepsPointers(db, e, c);
    }
  }

  lemma {:induction false} RunKeepsPointers(db: Db, run: seq<Action>, w: Weights)
    requires PointersOk(db)
    ensures PointersOk(Run(db, run, w))
    decreases |run|
  {
    hide Step, PointersOk;
    if run != [] {
      StepKeepsPointers(db, run[0], w);
      RunKeepsPointers(Step(db, run[0], w), run[1..], w);
    }
  }

  /** In every reachable state each pointer is empty or a lesson of the latest version. */
  lemma PointersAreAlwaysValid(run: seq<Action>, w: Weights, e: string)
    ensures var db := Run(INITIAL, run, w);
            e in db.enrollments ==> PointerOk(db, db.enrollments[e])
  {
    hide Run, PointerOk;
    RunKeepsPointers(INITIAL, run, w);
  }
}
