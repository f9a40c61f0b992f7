/** What generations, revisions and snapshots mean over whole runs. */
module LearningHistory {
  import opened Options
  import L = LearningState
  import opened ProgressRemap
  import opened TokenWeights
  import opened Learning

  // ----- how one step moves an enrollment -----

  predicate Kept(a: Enrollment, b: Enrollment) {
    a.user == b.user && a.course == b.course
    && a.generation == b.generation && a.revision == b.revision && a.state == b.state
  }

  predicate Advanced(a: Enrollment, b: Enrollment) {
    a.user == b.user && a.course == b.course && a.generation == b.generation && b.revision == a.revision + 1
  }

  predicate Restarted(a: Enrollment, b: Enrollment) {
    a.user == b.user && a.course == b.course
    && b.generation == a.generation + 1 && b.revision == 0 && b.state == L.EMPTY && !b.active
  }

  predicate Moves(a: Enrollment, b: Enrollment) {
    Kept(a, b) || Advanced(a, b) || Restarted(a, b)
  }

  predicate IsNew(e: Enrollment) {
    e.generation == 0 && e.revision == 0 && e.state == L.EMPTY
  }

  predicate Evolves(db: Db, db': Db) {
    && (forall e <- db.enrollments :: e in db'.enrollments && Moves(db.enrollments[e], db'.enrollments[e]))
    && (forall e <- db'.enrollments :: e !in db.enrollments ==> IsNew(db'.enrollments[e]))
  }

  // ----- which tables each transaction writes -----

  /** Chat leaves enrollments, snapshots, activities and courses alone. */
  predicate SameLearning(db: Db, db': Db) {
    && db'.courses == db.courses && db'.enrollments == db.enrollments && db'.snapshots == db.snapshots
    && db'.activities == db.activities && db'.seen == db.seen
  }

  predicate ChatAction(a: Action) {
    a.DoPrepare? || a.DoReply? || a.DoCharge? || a.DoFallback? || a.DoDie?
  }

  lemma PrepareKeepsLearning(db: Db, r: Request, versionId: string, lesson: string)
    ensures SameLearning(db, PrepareTx(db, r, versionId, lesson).0)
  {
    hide OnlyLesson, Latest, HasMessage, Current;
  }

  lemma ChargeKeepsLearning(db: Db, r: Request, usage: Usage, w: Weights)
    requires r.enrollment in db.enrollments
    ensures SameLearning(db, ChargeStale(db, r, usage, w))
  {
    hide Consumed, HasCharge;
  }

  lemma ReplyKeepsLearning(db: Db, r: Request, usage: Option<Usage>)
    ensures SameLearning(db, ReplyTx(db, r, usage).0)
  {
    hide HasMessage, Current, Awaits;
  }

  lemma ChargeTxKeepsLearning(db: Db, r: Request, w: Weights)
    ensures SameLearning(db, ChargeTx(db, r, w))
  {
    hide ChargeStale;
    if r in db.pending && db.pending[r].Some? && r.enrollment in db.enrollments {
      ChargeKeepsLearning(db, r, db.pending[r].value, w);
    }
  }

  lemma ChatKeepsLearning(db: Db, a: Action, w: Weights)
    requires ChatAction(a)
    ensures SameLearning(db, Step(db, a, w))
  {
    hide PrepareTx, ReplyTx, ChargeTx, Writable;
    match a
    case DoPrepare(r, versionId, lesson) => PrepareKeepsLearning(db, r, versionId, lesson);
    case DoReply(r, usage) => ReplyKeepsLearning(db, r, usage);
    case DoCharge(r) => ChargeTxKeepsLearning(db, r, w);
    case _ =>
  }

  /** One more row in the snapshot table. */
  lemma SnapshotWrites(db: Db, e: string, c: Command)
    ensures var db' := SnapshotTx(db, e, c).0;
            db' == db
            || (e in db.enrollments && e in db.snapshots && ManualKey(c.request) !in db.snapshots[e]
                && var en := db.enrollments[e];
                   db' == AddSnapshot(db, e, ManualKey(c.request), Snapshot(en.generation, en.revision, c.version, en.state)))
  {
    hide UpToDate, SameCommand;
  }

  /** A completion advances the state, and may add one activity and one snapshot. */
  lemma CompleteWrites(db: Db, e: string, lesson: string, c: Completion, now: L.Time)
    ensures var db' := CompleteTx(db, e, lesson, c, now).0;
            db' == db
            || (e in db.enrollments && e in db.snapshots && Published(db, db.enrollments[e].course)
                && CompleteWrote(db, db', e, lesson, c, now))
  {
    hide OnlyLesson, AllCompleted, CompletedState, Latest, L.EverCompleted, L.Completed;
  }

  predicate CompleteWrote(db: Db, db': Db, e: string, lesson: string, c: Completion, now: L.Time)
    requires e in db.enrollments && e in db.snapshots && Published(db, db.enrollments[e].course)
  {
    var en := db.enrollments[e];
    var version := Latest(db, en.course);
    var next := CompletedState(en.state, version, lesson, c.completed, now);
    var key := CompletedKey(en.generation);
    var db1 := Advance(db, e, next);
    var wasDone := L.Completed(en.state, lesson);
    && wasDone != c.completed && db'.courses == db.courses
    && db'.enrollments == db1.enrollments && db'.seen == db1.seen
    && db'.activities == (if c.completed && !L.EverCompleted(en.state, lesson)
                          then db.activities + [Activity(e, en.generation, lesson)] else db.activities)
    && db'.messages == db.messages && db'.charges == db.charges && db'.pending == db.pending
    && db'.accepted == db.accepted && db'.metered == db.metered && db'.waived == db.waived
    && (if AllCompleted(version, next) && en.state.completedAt.None? then
          && key !in db.snapshots[e]
          && db'.snapshots ==
             db.snapshots[e := db.snapshots[e][key := Snapshot(en.generation, en.revision + 1, version.id, next)]]
        else db'.snapshots == db.snapshots)
  }

  lemma ReadWrites(db: Db, e: string, generation: nat, versionId: string, lesson: string)
    ensures var db' := ReadTx(db, e, generation, versionId, lesson).0;
            db' == db
            || (e in db.enrollments && Published(db, db.enrollments[e].course)
                && OnlyLesson(Latest(db, db.enrollments[e].course), lesson)
                && db' == Advance(db, e, L.SetReadingPosition(db.enrollments[e].state, lesson)))
  {
    hide OnlyLesson, Latest;
  }

  /** A restart settles the chat, stores the old state and starts the next generation. */
  lemma RestartWrites(db: Db, e: string, c: Command, w: Weights)
    ensures var db' := RestartTx(db, e, c, w).0;
            db' == db
            || (e in db.enrollments && e in db.snapshots && Published(db, db.enrollments[e].course)
                && RestartKey(c.request) !in db.snapshots[e]
                && var en := db.enrollments[e];
                   var s := Snapshot(en.generation, en.revision, c.version, en.state);
                   db' == NextGeneration(Settle(AddSnapshot(db, e, RestartKey(c.request), s), e, w), e))
  {
    hide UpToDate, SameCommand, Settle, NextGeneration;
  }

  /** Only the version and the active flag of an enrollment change. */
  predicate Reenrolled(a: Enrollment, b: Enrollment) {
    b == a.(active := b.active, version := b.version)
  }

  lemma EnrollWritesRows(db: Db, user: string, course: string, newId: string)
    ensures var db' := EnrollTx(db, user, course, newId).0;
            && (forall e <- db.enrollments :: e in db'.enrollments && Reenrolled(db.enrollments[e], db'.enrollments[e]))
            && (forall e <- db'.enrollments :: e !in db.enrollments ==>
                  e == newId && IsNew(db'.enrollments[e]) && Published(db, db'.enrollments[e].course))
  {
    hide Latest, Deactivate;
    DeactivateReenrolls(db.enrollments, user);
  }

  lemma DeactivateReenrolls(enrollments: map<string, Enrollment>, user: string)
    ensures Deactivate(enrollments, user).Keys == enrollments.Keys
    ensures forall e <- enrollments :: Reenrolled(enrollments[e], Deactivate(enrollments, user)[e])
  {
  }

  /** A new enrollment, with an empty set of snapshots and its first pair, or none. */
  predicate Inserted(db: Db, db': Db, newId: string) {
    if db'.enrollments.Keys == db.enrollments.Keys then db'.snapshots == db.snapshots && db'.seen == db.seen
    else newId !in db.enrollments && db'.enrollments.Keys == db.enrollments.Keys + {newId}
         && db'.snapshots == db.snapshots[newId := map[]] && db'.seen == db.seen[(newId, 0, 0) := L.EMPTY]
  }

  predicate SameElse(db: Db, db': Db) {
    && db'.courses == db.courses && db'.activities == db.activities && db'.messages == db.messages
    && db'.charges == db.charges && db'.pending == db.pending && db'.accepted == db.accepted
    && db'.metered == db.metered && db'.waived == db.waived
  }

  lemma EnrollInserts(db: Db, user: string, course: string, newId: string)
    ensures var db' := EnrollTx(db, user, course, newId).0; Inserted(db, db', newId) && SameElse(db, db')
  {
    hide Latest;
    var others := Deactivate(db.enrollments, user);
    assert others.Keys == db.enrollments.Keys;
    assert others[newId := Enrollment(user, course, "", 0, 0, true, L.EMPTY)].Keys == db.enrollments.Keys + {newId};
  }

  lemma EnrollWrites(db: Db, user: string, course: string, newId: string)
    ensures var db' := EnrollTx(db, user, course, newId).0;
            && (forall e <- db.enrollments :: e in db'.enrollments && Reenrolled(db.enrollments[e], db'.enrollments[e]))
            && (forall e <- db'.enrollments :: e !in db.enrollments ==>
                  e == newId && IsNew(db'.enrollments[e]) && Published(db, db'.enrollments[e].course))
            && Inserted(db, db', newId) && SameElse(db, db')
  {
    hide EnrollTx;
    EnrollWritesRows(db, user, course, newId);
    EnrollInserts(db, user, course, newId);
  }

  // ----- every step moves every enrollment forward, or not at all -----

  lemma RestartEvolves(db: Db, e: string, c: Command, w: Weights)
    ensures Evolves(db, RestartTx(db, e, c, w).0)
  {
    hide RestartTx, Consumed, UsagesOf, WithoutEnrollment, Latest;
    RestartWrites(db, e, c, w);
  }

  lemma CompleteEvolves(db: Db, e: string, lesson: string, c: Completion, now: L.Time)
    ensures Evolves(db, CompleteTx(db, e, lesson, c, now).0)
  {
    hide CompleteTx, CompletedState, AllCompleted, Latest, L.EverCompleted, L.Completed;
    CompleteWrites(db, e, lesson, c, now);
  }

  lemma ReadEvolves(db: Db, e: string, generation: nat, versionId: string, lesson: string)
    ensures Evolves(db, ReadTx(db, e, generation, versionId, lesson).0)
  {
    hide ReadTx, OnlyLesson, Latest, L.SetReadingPosition;
    ReadWrites(db, e, generation, versionId, lesson);
  }

  lemma EnrollEvolves(db: Db, user: string, course: string, newId: string)
    ensures Evolves(db, EnrollTx(db, user, course, newId).0)
  {
    hide EnrollTx;
    EnrollWrites(db, user, course, newId);
  }

  lemma PublishEvolves(db: Db, course: string, version: Version)
    ensures Evolves(db, PublishTx(db, course, version).0)
  {
    hide Publishable, Remap, Latest, L.RemapReadingPosition;
  }

  lemma StepEvolves(db: Db, a: Action, w: Weights)
    ensures Evolves(db, Step(db, a, w))
  {
    if ChatAction(a) {
      hide Step;
      ChatKeepsLearning(db, a, w);
    } else {
      hide EnrollTx, RestartTx, CompleteTx, ReadTx, PublishTx, SnapshotTx, Evolves;
      match a
      case DoPublish(course, version) => PublishEvolves(db, course, version);
      case DoEnroll(user, course, newId) => EnrollEvolves(db, user, course, newId);
      case DoRestart(e, c) => RestartEvolves(db, e, c, w);
      case DoComplete(e, lesson, c, now) => CompleteEvolves(db, e, lesson, c, now);
      case DoRead(e, g, v, lesson) => ReadEvolves(db, e, g, v, lesson);
      case DoSnapshot(e, c) => SnapshotEvolves(db, e, c);
    }
  }

  lemma SnapshotEvolves(db: Db, e: string, c: Command)
    ensures Evolves(db, SnapshotTx(db, e, c).0)
  {
    hide SnapshotTx;
    SnapshotWrites(db, e, c);
  }

  predicate LexLe(g1: nat, r1: nat, g2: nat, r2: nat) {
    g1 < g2 || (g1 == g2 && r1 <= r2)
  }

  /** The pair only grows, and as long as it stays the learning state stays. */
  lemma {:induction false} PairDeterminesState(db: Db, run: seq<Action>, w: Weights, e: string)
    requires e in db.enrollments
    ensures var db' := Run(db, run, w);
            && e in db'.enrollments
            && var (a, b) := (db.enrollments[e], db'.enrollments[e]);
            && LexLe(a.generation, a.revision, b.generation, b.revision)
            && (a.generation == b.generation && a.revision == b.revision ==> a.state == b.state)
    decreases |run|
  {
    hide Step;
    if run != [] {
      StepEvolves(db, run[0], w);
      PairDeterminesState(Step(db, run[0], w), run[1..], w, e);
    }
  }

  // ----- snapshots are exact -----

  predicate SeenOf(db: Db, e: string)
    requires e in db.enrollments
  {
    var en := db.enrollments[e];
    (e, en.generation, en.revision) in db.seen && db.seen[(e, en.generation, en.revision)] == en.state
  }

  predicate Past(db: Db, k: (string, nat, nat)) {
    k.0 in db.enrollments && LexLe(k.1, k.2, db.enrollments[k.0].generation, db.enrollments[k.0].revision)
  }

  predicate Exact(db: Db, e: string, s: Snapshot) {
    (e, s.generation, s.revision) in db.seen && db.seen[(e, s.generation, s.revision)] == s.state
  }

  predicate SeenExact(db: Db) {
    && db.snapshots.Keys == db.enrollments.Keys
    && (forall e <- db.enrollments :: SeenOf(db, e))
    && (forall k <- db.seen :: Past(db, k))
    && (forall e <- db.snapshots, key <- db.snapshots[e] :: Exact(db, e, db.snapshots[e][key]))
  }

  predicate Extends(before: map<(string, nat, nat), L.State>, after: map<(string, nat, nat), L.State>) {
    forall k <- before :: k in after && after[k] == before[k]
  }

  // ----- every step keeps the history exact -----

  /** Only new pairs are recorded. */
  lemma AdvanceKeepsSeen(db: Db, e: string, state: L.State)
    requires SeenExact(db) && e in db.enrollments
    ensures SeenExact(Advance(db, e, state)) && Extends(db.seen, Advance(db, e, state).seen)
  {
    var db' := Advance(db, e, state);
    var en := db.enrollments[e];
    assert !Past(db, (e, en.generation, en.revision + 1));
    forall x | x in db'.enrollments ensures SeenOf(db', x) {
      assert SeenOf(db, x);
    }
    forall k | k in db'.seen ensures Past(db', k) {
      assert k in db.seen ==> Past(db, k);
    }
    forall x, key | x in db'.snapshots && key in db'.snapshots[x] ensures Exact(db', x, db'.snapshots[x][key]) {
      assert Exact(db, x, db.snapshots[x][key]);
    }
  }

  /** A snapshot of a recorded pair. */
  lemma AddSnapshotKeepsSeen(db: Db, e: string, key: Key, s: Snapshot)
    requires SeenExact(db) && e in db.snapshots && Exact(db, e, s)
    ensures SeenExact(AddSnapshot(db, e, key, s)) && AddSnapshot(db, e, key, s).seen == db.seen
  {
    var db' := AddSnapshot(db, e, key, s);
    forall x | x in db'.enrollments ensures SeenOf(db', x) {
      assert SeenOf(db, x);
    }
    forall k | k in db'.seen ensures Past(db', k) {
      assert Past(db, k);
    }
    forall x, y | x in db'.snapshots && y in db'.snapshots[x] ensures Exact(db', x, db'.snapshots[x][y]) {
      if x != e || y != key {
        assert Exact(db, x, db.snapshots[x][y]);
      }
    }
  }

  /** Tables this history does not depend on. */
  lemma SameHistory(db: Db, db': Db)
    requires SeenExact(db) && db'.enrollments == db.enrollments && db'.snapshots == db.snapshots && db'.seen == db.seen
    ensures SeenExact(db') && Extends(db.seen, db'.seen)
  {
    forall x | x in db'.enrollments ensures SeenOf(db', x) {
      assert SeenOf(db, x);
    }
    forall k | k in db'.seen ensures Past(db', k) {
      assert Past(db, k);
    }
    forall x, y | x in db'.snapshots && y in db'.snapshots[x] ensures Exact(db', x, db'.snapshots[x][y]) {
      assert Exact(db, x, db.snapshots[x][y]);
    }
  }

  lemma NextGenerationWrites(db: Db, e: string)
    requires e in db.enrollments && Published(db, db.enrollments[e].course)
    ensures var db' := NextGeneration(db, e); var en := db.enrollments[e];
            && db'.enrollments.Keys == db.enrollments.Keys && db'.snapshots == db.snapshots
            && db'.seen == db.seen[(e, en.generation + 1, 0) := L.EMPTY]
            && Restarted(en, db'.enrollments[e])
            && forall x <- db.enrollments :: x != e ==> Kept(db.enrollments[x], db'.enrollments[x])
  {
    hide Latest;
  }

  lemma NextGenerationKeepsSeen(db: Db, e: string)
    requires SeenExact(db) && e in db.enrollments && Published(db, db.enrollments[e].course)
    ensures SeenExact(NextGeneration(db, e)) && Extends(db.seen, NextGeneration(db, e).seen)
  {
    hide NextGeneration, Latest;
    NextGenerationWrites(db, e);
    var db' := NextGeneration(db, e);
    assert !Past(db, (e, db.enrollments[e].generation + 1, 0));
    forall x | x in db'.enrollments ensures SeenOf(db', x) {
      assert SeenOf(db, x);
    }
    forall k | k in db'.seen ensures Past(db', k) {
      assert k in db.seen ==> Past(db, k);
    }
    forall x, key | x in db'.snapshots && key in db'.snapshots[x] ensures Exact(db', x, db'.snapshots[x][key]) {
      assert Exact(db, x, db.snapshots[x][key]);
    }
  }

  lemma RestartKeepsSeen(db: Db, e: string, c: Command, w: Weights)
    requires SeenExact(db)
    ensures var db' := RestartTx(db, e, c, w).0; SeenExact(db') && Extends(db.seen, db'.seen)
  {
    hide RestartTx, Consumed, UsagesOf, WithoutEnrollment, Latest, SeenExact, NextGeneration;
    RestartWrites(db, e, c, w);
    var db' := RestartTx(db, e, c, w).0;
    if db' != db {
      var en := db.enrollments[e];
      var s := Snapshot(en.generation, en.revision, c.version, en.state);
      CurrentIsExact(db, e, s);
      var db1 := AddSnapshot(db, e, RestartKey(c.request), s);
      AddSnapshotKeepsSeen(db, e, RestartKey(c.request), s);
      SameHistory(db1, Settle(db1, e, w));
      NextGenerationKeepsSeen(Settle(db1, e, w), e);
    }
  }

  lemma CurrentIsExact(db: Db, e: string, s: Snapshot)
    requires SeenExact(db) && e in db.enrollments
    requires s.generation == db.enrollments[e].generation && s.revision == db.enrollments[e].revision
    requires s.state == db.enrollments[e].state
    ensures Exact(db, e, s)
  {
    assert SeenOf(db, e);
  }

  lemma SnapshotKeepsSeen(db: Db, e: string, c: Command)
    requires SeenExact(db)
    ensures var db' := SnapshotTx(db, e, c).0; SeenExact(db') && Extends(db.seen, db'.seen)
  {
    hide SnapshotTx, SeenExact;
    SnapshotWrites(db, e, c);
    if SnapshotTx(db, e, c).0 != db {
      var en := db.enrollments[e];
      var s := Snapshot(en.generation, en.revision, c.version, en.state);
      CurrentIsExact(db, e, s);
      AddSnapshotKeepsSeen(db, e, ManualKey(c.request), s);
    }
  }

  lemma CompleteKeepsSeen(db: Db, e: string, lesson: string, c: Completion, now: L.Time)
    requires SeenExact(db)
    ensures var db' := CompleteTx(db, e, lesson, c, now).0; SeenExact(db') && Extends(db.seen, db'.seen)
  {
    hide CompleteTx, SeenExact, CompletedState, AllCompleted, Latest, L.EverCompleted, L.Completed;
    CompleteWrites(db, e, lesson, c, now);
    var db' := CompleteTx(db, e, lesson, c, now).0;
    if db' != db {
      var en := db.enrollments[e];
      var version := Latest(db, en.course);
      var next := CompletedState(en.state, version, lesson, c.completed, now);
      var db1 := Advance(db, e, next);
      AdvanceKeepsSeen(db, e, next);
      if AllCompleted(version, next) && en.state.completedAt.None? {
        var s := Snapshot(en.generation, en.revision + 1, version.id, next);
        CurrentIsExact(db1, e, s);
        AddSnapshotKeepsSeen(db1, e, CompletedKey(en.generation), s);
        SameHistory(AddSnapshot(db1, e, CompletedKey(en.generation), s), db');
      } else {
        SameHistory(db1, db');
      }
    }
  }

  lemma ReadKeepsSeen(db: Db, e: string, generation: nat, versionId: string, lesson: string)
    requires SeenExact(db)
    ensures var db' := ReadTx(db, e, generation, versionId, lesson).0; SeenExact(db') && Extends(db.seen, db'.seen)
  {
    hide ReadTx, SeenExact, OnlyLesson, Latest, L.SetReadingPosition;
    ReadWrites(db, e, generation, versionId, lesson);
    if ReadTx(db, e, generation, versionId, lesson).0 != db {
      AdvanceKeepsSeen(db, e, L.SetReadingPosition(db.enrollments[e].state, lesson));
    }
  }

  /** Enrollments that moved forward, new ones without snapshots, and a record of every
      pair that is new. */
  lemma MovesKeepSeen(db: Db, db': Db)
    requires SeenExact(db) && Evolves(db, db') && db'.snapshots.Keys == db'.enrollments.Keys
    requires forall e <- db'.snapshots :: db'.snapshots[e] == if e in db.snapshots then db.snapshots[e] else map[]
    requires Extends(db.seen, db'.seen) && forall e <- db'.enrollments :: SeenOf(db', e)
    requires forall k <- db'.seen :: k !in db.seen ==> Past(db', k)
    ensures SeenExact(db')
  {
    hide Evolves, Moves;
    forall k | k in db'.seen ensures Past(db', k) {
      if k in db.seen {
        assert Past(db, k);
        MovesForward(db, db', k.0);
      }
    }
    forall x, key | x in db'.snapshots && key in db'.snapshots[x] ensures Exact(db', x, db'.snapshots[x][key]) {
      assert Exact(db, x, db.snapshots[x][key]);
    }
  }

  lemma MovesForward(db: Db, db': Db, e: string)
    requires Evolves(db, db') && e in db.enrollments
    ensures e in db'.enrollments
    ensures var (a, b) := (db.enrollments[e], db'.enrollments[e]); LexLe(a.generation, a.revision, b.generation, b.revision)
  {
  }

  lemma EnrollKeepsSeen(db: Db, user: string, course: string, newId: string)
    requires SeenExact(db)
    ensures var db' := EnrollTx(db, user, course, newId).0; SeenExact(db') && Extends(db.seen, db'.seen)
  {
    hide EnrollTx, Evolves, Past, SeenExact;
    var db' := EnrollTx(db, user, course, newId).0;
    EnrollWrites(db, user, course, newId);
    EnrollEvolves(db, user, course, newId);
    SeenFacts(db);
    if newId !in db.enrollments {
      NewPair(db, newId);
    }
    forall x | x in db'.enrollments ensures SeenOf(db', x) {
      assert x in db.enrollments ==> SeenOf(db, x);
    }
    assert forall k | k in db'.seen && k !in db.seen :: Past(db', k) by {
      assert Past(db', (newId, 0, 0)) || db'.seen == db.seen by { PastOfNew(db', newId); }
    }
    MovesKeepSeen(db, db');
  }

  lemma SeenFacts(db: Db)
    requires SeenExact(db)
    ensures db.snapshots.Keys == db.enrollments.Keys && forall e <- db.enrollments :: SeenOf(db, e)
  {
  }

  lemma NewPair(db: Db, e: string)
    requires SeenExact(db) && e !in db.enrollments
    ensures (e, 0, 0) !in db.seen
  {
    assert !Past(db, (e, 0, 0));
  }

  lemma PastOfNew(db: Db, e: string)
    ensures e in db.enrollments ==> Past(db, (e, 0, 0))
  {
  }

  lemma RemapSees(db: Db, course: string, remap: map<string, string>)
    requires SeenExact(db)
    ensures var db' := RemapPointers(db, course, remap); Extends(db.seen, db'.seen)
  {
    hide L.RemapReadingPosition;
    var db' := RemapPointers(db, course, remap);
    forall k | k in db.seen ensures k in db'.seen && db'.seen[k] == db.seen[k] {
      assert Past(db, k) && SeenOf(db, k.0);
    }
  }

  lemma RemapEvolves(db: Db, course: string, remap: map<string, string>)
    ensures Evolves(db, RemapPointers(db, course, remap))
  {
    hide L.RemapReadingPosition;
  }

  lemma RemapSeesCurrent(db: Db, course: string, remap: map<string, string>, e: string)
    requires SeenOf'(db, e)
    ensures SeenOf'(RemapPointers(db, course, remap), e)
  {
    hide L.RemapReadingPosition;
  }

  lemma RemapRecordsPast(db: Db, course: string, remap: map<string, string>, k: (string, nat, nat))
    requires k in RemapPointers(db, course, remap).seen && k !in db.seen
    ensures Past(RemapPointers(db, course, remap), k)
  {
    hide L.RemapReadingPosition;
  }

  predicate SeenOf'(db: Db, e: string) {
    e in db.enrollments && SeenOf(db, e)
  }

  /** Remapping records a new pair exactly for the pointers that moved. */
  lemma RemapKeepsSeen(db: Db, course: string, remap: map<string, string>)
    requires SeenExact(db)
    ensures var db' := RemapPointers(db, course, remap); SeenExact(db') && Extends(db.seen, db'.seen)
  {
    hide L.RemapReadingPosition, SeenExact, Extends, Evolves, Remapped;
    var db' := RemapPointers(db, course, remap);
    SeenFacts(db);
    RemapSees(db, course, remap);
    RemapEvolves(db, course, remap);
    forall x | x in db'.enrollments ensures SeenOf(db', x) {
      assert SeenOf'(db, x);
      RemapSeesCurrent(db, course, remap, x);
    }
    forall k | k in db'.seen && k !in db.seen ensures Past(db', k) {
      RemapRecordsPast(db, course, remap, k);
    }
    MovesKeepSeen(db, db');
  }

  lemma PublishKeepsSeen(db: Db, course: string, version: Version)
    requires SeenExact(db)
    ensures var db' := PublishTx(db, course, version).0; SeenExact(db') && Extends(db.seen, db'.seen)
  {
    hide Publishable, Remap, OldOrder, RemapPointers, SeenExact;
    var remap := Remap(OldOrder(db, course), version.lessons);
    var versions := if course in db.courses then db.courses[course] else [];
    var db1 := db.(courses := db.courses[course := versions + [version]]);
    SameHistory(db, db1);
    RemapKeepsSeen(db1, course, remap);
  }

  lemma StepKeepsSeen(db: Db, a: Action, w: Weights)
    requires SeenExact(db)
    ensures SeenExact(Step(db, a, w)) && Extends(db.seen, Step(db, a, w).seen)
  {
    hide SeenExact, Extends;
    if ChatAction(a) {
      hide Step;
      ChatKeepsLearning(db, a, w);
      SameHistory(db, Step(db, a, w));
    } else {
      hide EnrollTx, RestartTx, CompleteTx, ReadTx, PublishTx, SnapshotTx;
      match a
      case DoPublish(course, version) => PublishKeepsSeen(db, course, version);
      case DoEnroll(user, course, newId) => EnrollKeepsSeen(db, user, course, newId);
      case DoRestart(e, c) => RestartKeepsSeen(db, e, c, w);
      case DoComplete(e, lesson, c, now) => CompleteKeepsSeen(db, e, lesson, c, now);
      case DoRead(e, g, v, lesson) => ReadKeepsSeen(db, e, g, v, lesson);
      case DoSnapshot(e, c) => SnapshotKeepsSeen(db, e, c);
    }
  }

  lemma {:induction false} RunKeepsSeen(db: Db, run: seq<Action>, w: Weights)
    requires SeenExact(db)
    ensures SeenExact(Run(db, run, w)) && Extends(db.seen, Run(db, run, w).seen)
    decreases |run|
  {
    hide Step, SeenExact;
    if run != [] {
      StepKeepsSeen(db, run[0], w);
      RunKeepsSeen(Step(db, run[0], w), run[1..], w);
    }
  }

  /** Two moments of one run: whatever an enrollment was at a generation and revision, every
      snapshot that carries this pair, taken before or after, holds exactly that state. */
  lemma SnapshotsAreExact(first: seq<Action>, later: seq<Action>, w: Weights, e: string, key: Key)
    ensures var db1 := Run(INITIAL, first, w); var db2 := Run(db1, later, w);
            && (e in db1.enrollments && e in db2.snapshots && key in db2.snapshots[e] ==>
                  var (en, s) := (db1.enrollments[e], db2.snapshots[e][key]);
                  s.generation == en.generation && s.revision == en.revision ==> s.state == en.state)
            && (e in db2.enrollments && e in db1.snapshots && key in db1.snapshots[e] ==>
                  var (en, s) := (db2.enrollments[e], db1.snapshots[e][key]);
                  s.generation == en.generation && s.revision == en.revision ==> s.state == en.state)
  {
    hide Run;
    var db1 := Run(INITIAL, first, w);
    var db2 := Run(db1, later, w);
    RunKeepsSeen(INITIAL, first, w);
    RunKeepsSeen(db1, later, w);
    if e in db1.enrollments && e in db2.snapshots && key in db2.snapshots[e] {
      assert SeenOf(db1, e) && Exact(db2, e, db2.snapshots[e][key]);
    }
    if e in db2.enrollments && e in db1.snapshots && key in db1.snapshots[e] {
      assert SeenOf(db2, e) && Exact(db1, e, db1.snapshots[e][key]);
    }
  }
}
