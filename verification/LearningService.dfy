/** `EnrollmentsService` and `ChatService`: the tables as fields, each transaction as a
    method that updates rows in the order of the source.  Every method is proved to take
    exactly the step of `Learning` that the theorems are about. */
module LearningService {
  import opened Options
  import opened DraftOrder
  import L = LearningState
  import opened ProgressRemap
  import opened TokenWeights
  import opened Learning
  import opened LearningHistory
  import opened ChatRows

  class Service {
    const weights: Weights
    var courses: map<string, seq<Version>>
    var enrollments: map<string, Enrollment>
    var snapshots: map<string, map<Key, Snapshot>>
    var activities: seq<Activity>
    var messages: seq<Message>
    var charges: seq<Charge>
    var pending: map<Request, Option<Usage>>
    ghost var accepted: set<Request>
    ghost var metered: seq<Metered>
    ghost var waived: seq<Charge>
    ghost var seen: map<(string, nat, nat), L.State>

    ghost function State(): Db
      reads this
    {
      Db(courses, enrollments, snapshots, activities, messages, charges, pending, accepted, metered, waived, seen)
    }

    constructor (weights: Weights)
      ensures State() == INITIAL && this.weights == weights
    {
      this.weights := weights;
      courses, enrollments, snapshots := map[], map[], map[];
      activities, messages, charges, pending := [], [], [], map[];
      accepted, metered, waived, seen := {}, [], [], map[];
    }

    // ----- statements -----

    /** `enrollment.updateMany`, row by row in any order. */
    method DeactivateAll(user: string)
      modifies `enrollments
      ensures enrollments == Deactivate(old(enrollments), user)
    {
      ghost var was := enrollments;
      var rest := set e | e in enrollments && enrollments[e].user == user && enrollments[e].active;
      ghost var all := rest;
      while rest != {}
        invariant rest <= all && enrollments.Keys == was.Keys
        invariant forall e <- was :: enrollments[e] == if e in all - rest then was[e].(active := false) else was[e]
        decreases rest
      {
        var e :| e in rest;
        enrollments := enrollments[e := enrollments[e].(active := false)];
        rest := rest - {e};
      }
    }

    /** `conversation.aggregate({ _sum })` over the rows of one enrollment. */
    method AggregateUsage(e: string) returns (sum: Usage)
      ensures sum == Sum(UsagesOf(messages, e))
    {
      hide Sum, UsagesOf;
      sum := Usage(0, 0, 0);
      var i := 0;
      assert messages[0..] == messages;
      while i < |messages|
        invariant 0 <= i <= |messages|
        invariant Add(sum, Sum(UsagesOf(messages[i..], e))) == Sum(UsagesOf(messages, e))
      {
        assert messages[i..][1..] == messages[i + 1..] && messages[i..][0] == messages[i];
        SumFirst(messages[i..], e);
        if messages[i].request.enrollment == e && messages[i].usage.Some? {
          sum := Add(sum, messages[i].usage.value);
        }
        i := i + 1;
      }
      SumOfNone(messages[i..], e);
    }

    /** `conversation.deleteMany` */
    method DeleteMessages(e: string)
      modifies `messages
      ensures messages == WithoutEnrollment(old(messages), e)
    {
      var kept: seq<Message> := [];
      var i := 0;
      assert messages[0..] == messages && kept + WithoutEnrollment(messages, e) == WithoutEnrollment(messages, e);
      while i < |messages|
        invariant 0 <= i <= |messages| && messages == old(messages)
        invariant kept + WithoutEnrollment(messages[i..], e) == WithoutEnrollment(messages, e)
      {
        assert messages[i..][1..] == messages[i + 1..];
        ghost var rest := WithoutEnrollment(messages[i + 1..], e);
        assert kept + ([messages[i]] + rest) == kept + [messages[i]] + rest && [] + rest == rest;
        if messages[i].request.enrollment != e {
          kept := kept + [messages[i]];
        }
        i := i + 1;
      }
      assert kept + [] == kept;
      messages := kept;
    }

    method WriteCharge(c: Charge)
      modifies `charges, `waived
      ensures charges == AddCharge(old(State()), c).charges && waived == AddCharge(old(State()), c).waived
    {
      if c.amount > 0 {
        charges := charges + [c];
      } else {
        waived := waived + [c];
      }
    }

    // ----- transactions -----

    method Enroll(user: string, course: string, newId: string) returns (outcome: Outcome)
      modifies this
      ensures (State(), outcome) == EnrollTx(old(State()), user, course, newId)
    {
      hide Deactivate, EnrollTx;
      EnrollRefuses(State(), user, course, newId);
      if course !in courses || courses[course] == [] {
        return NotFound;
      }
      var version := courses[course][|courses[course]| - 1].id;
      var owned := set e | e in enrollments && enrollments[e].user == user && enrollments[e].course == course;
      OwnedIff(State(), user, course, owned);
      if owned == {} && newId in enrollments {
        return Conflict;
      }
      EnrollIs(State(), user, course, newId, owned);
      DeactivateAll(user);
      if owned == {} {
        enrollments := enrollments[newId := Enrollment(user, course, version, 0, 0, true, L.EMPTY)];
        snapshots := snapshots[newId := map[]];
        seen := seen[(newId, 0, 0) := L.EMPTY];
      } else {
        enrollments := map e | e in enrollments ::
          if e in owned then enrollments[e].(active := true, version := version) else enrollments[e];
      }
      return Done;
    }

    method Restart(e: string, c: Command) returns (outcome: Outcome)
      modifies this
      ensures (State(), outcome) == RestartTx(old(State()), e, c, weights)
    {
      hide Deactivate, UsagesOf, WithoutEnrollment, Consumed, RestartTx;
      RestartRefuses(State(), e, c, weights);
      if e !in enrollments || e !in snapshots || enrollments[e].course !in courses || courses[enrollments[e].course] == [] {
        return NotFound;
      }
      var current := enrollments[e];
      var version := courses[current.course][|courses[current.course]| - 1];
      var key := RestartKey(c.request);
      if key in snapshots[e] {
        var existing := snapshots[e][key];
        if existing.generation != c.generation || existing.revision != c.revision || existing.version != c.version {
          return Conflict;
        }
        return Replay;
      }
      if current.generation != c.generation || current.revision != c.revision || version.id != c.version {
        return Conflict;
      }
      AcceptRestart(e, c, current, version.id);
      return Done;
    }

    /** The writes of an accepted restart. */
    method AcceptRestart(e: string, c: Command, current: Enrollment, version: string)
      requires e in enrollments && e in snapshots && enrollments[e] == current && Published(State(), current.course)
      requires RestartKey(c.request) !in snapshots[e] && UpToDate(State(), e, c) && version == Latest(State(), current.course).id
      modifies this
      ensures (State(), Done) == RestartTx(old(State()), e, c, weights)
    {
      hide Deactivate, UsagesOf, WithoutEnrollment, Consumed, RestartTx, UpToDate, Latest, Sum, Weight;
      RestartIs(State(), e, c, weights);
      var key := RestartKey(c.request);
      snapshots := snapshots[e := snapshots[e][key := Snapshot(current.generation, current.revision, version, current.state)]];
      DeactivateAll(current.user);
      enrollments := enrollments[e := Enrollment(current.user, current.course, version, current.generation + 1, 0, false, L.EMPTY)];
      seen := seen[(e, current.generation + 1, 0) := L.EMPTY];
      SettleMessages(e, current);
    }

    method SettleMessages(e: string, current: Enrollment)
      modifies `messages, `charges, `waived
      ensures var usages := UsagesOf(old(messages), e);
              var paid := AddCharge(old(State()), Charge(Settlement(e, current.generation), current.user, Consumed(usages, weights), usages));
              charges == paid.charges && waived == paid.waived
      ensures messages == WithoutEnrollment(old(messages), e)
    {
      hide UsagesOf, WithoutEnrollment, Consumed, Sum, Weight;
      var sum := AggregateUsage(e);
      var consumed := Ceil(Weight(sum, weights));
      SettlementAmount(UsagesOf(messages, e), sum, weights);
      WriteCharge(Charge(Settlement(e, current.generation), current.user, consumed, UsagesOf(messages, e)));
      DeleteMessages(e);
    }

    /** `[...uniqueLessonIds].every((id) => next.lessons[id]?.completedAt)` */
    method EveryCompleted(version: Version, s: L.State) returns (done: bool)
      ensures done <==> AllCompleted(version, s)
    {
      var i := 0;
      while i < |version.lessons|
        invariant 0 <= i <= |version.lessons|
        invariant forall k | 0 <= k < i :: L.Completed(s, version.lessons[k])
      {
        if !L.Completed(s, version.lessons[i]) {
          return false;
        }
        i := i + 1;
      }
      return true;
    }

    method SetLessonProgress(e: string, lesson: string, c: Completion, now: L.Time) returns (outcome: Outcome)
      modifies this
      ensures (State(), outcome) == CompleteTx(old(State()), e, lesson, c, now)
    {
      hide L.Completed, L.EverCompleted, AllCompleted, OnlyLesson, L.SetLessonCompletion;
      if e !in enrollments || e !in snapshots || enrollments[e].course !in courses || courses[enrollments[e].course] == [] {
        return NotFound;
      }
      var enrollment := enrollments[e];
      if enrollment.generation != c.generation || !enrollment.active {
        return Conflict;
      }
      var version := courses[enrollment.course][|courses[enrollment.course]| - 1];
      if version.id != c.version {
        return Conflict;
      }
      if !OnlyLesson(version, lesson) {
        return NotFound;
      }
      var state := enrollment.state;
      if L.Completed(state, lesson) == c.completed {
        return Done;
      }
      if enrollment.revision != c.revision {
        return Conflict;
      }
      var next := L.SetLessonCompletion(state, lesson, c.completed, now);
      CompletionKept(state, lesson, c.completed, now, version);
      var done := EveryCompleted(version, next);
      if done && next.completedAt.None? {
        next := L.WithCourseCompletion(next, now);
      }
      var key := CompletedKey(c.generation);
      if done && state.completedAt.None? && key in snapshots[e] {
        // unique constraint: the transaction fails as a whole
        return Conflict;
      }
      enrollments := enrollments[e := enrollment.(state := next, revision := enrollment.revision + 1)];
      seen := seen[(e, enrollment.generation, enrollment.revision + 1) := next];
      if c.completed && !L.EverCompleted(state, lesson) {
        activities := activities + [Activity(e, enrollment.generation, lesson)];
      }
      if done && state.completedAt.None? {
        snapshots := snapshots[e := snapshots[e][key := Snapshot(c.generation, enrollment.revision + 1, version.id, next)]];
      }
      return Done;
    }

    method SetReadingPosition(e: string, generation: nat, versionId: string, lesson: string) returns (outcome: Outcome)
      modifies this
      ensures (State(), outcome) == ReadTx(old(State()), e, generation, versionId, lesson)
    {
      if e !in enrollments || enrollments[e].course !in courses || courses[enrollments[e].course] == [] {
        return NotFound;
      }
      var enrollment := enrollments[e];
      if enrollment.generation != generation || !enrollment.active {
        return Conflict;
      }
      var version := courses[enrollment.course][|courses[enrollment.course]| - 1];
      if version.id != versionId {
        return Conflict;
      }
      if !OnlyLesson(version, lesson) {
        return NotFound;
      }
      var next := L.SetReadingPosition(enrollment.state, lesson);
      if next.reading != enrollment.state.reading {
        enrollments := enrollments[e := enrollment.(state := next, revision := enrollment.revision + 1)];
        seen := seen[(e, enrollment.generation, enrollment.revision + 1) := next];
      }
      return Done;
    }

    method CreateSnapshot(e: string, c: Command) returns (outcome: Outcome)
      modifies this
      ensures (State(), outcome) == SnapshotTx(old(State()), e, c)
    {
      if e !in enrollments || e !in snapshots || enrollments[e].course !in courses || courses[enrollments[e].course] == [] {
        return NotFound;
      }
      var current := enrollments[e];
      var version := courses[current.course][|courses[current.course]| - 1];
      var key := ManualKey(c.request);
      if key in snapshots[e] {
        var existing := snapshots[e][key];
        if existing.generation != c.generation || existing.revision != c.revision || existing.version != c.version {
          return Conflict;
        }
        return Replay;
      }
      if current.generation != c.generation || current.revision != c.revision || version.id != c.version {
        return Conflict;
      }
      snapshots := snapshots[e := snapshots[e][key := Snapshot(current.generation, current.revision, version.id, current.state)]];
      return Done;
    }

    /** One locked row: written only when its pointer moves. */
    method RemapOne(e: string, course: string, remap: map<string, string>)
      requires e in enrollments && enrollments[e].course == course
      modifies `enrollments, `seen
      ensures enrollments == old(enrollments)[e := Remapped(old(enrollments)[e], remap)]
      ensures var en := old(enrollments)[e];
              seen == if Moved(en, course, remap) then old(seen)[(e, en.generation, en.revision + 1) := Remapped(en, remap).state]
                      else old(seen)
    {
      hide L.RemapReadingPosition;
      var current := enrollments[e];
      var next := L.RemapReadingPosition(current.state, remap);
      if next != current.state {
        enrollments := enrollments[e := current.(state := next, revision := current.revision + 1)];
        seen := seen[(e, current.generation, current.revision + 1) := next];
      } else {
        assert enrollments == enrollments[e := current];
      }
    }

    /** Pointers at removed lessons, one row after the other. */
    method RemapPublishedReadingPointers(course: string, remap: map<string, string>)
      modifies `enrollments, `seen
      ensures enrollments == RemapPointers(old(State()), course, remap).enrollments
      ensures seen == RemapPointers(old(State()), course, remap).seen
    {
      hide Records, Remapped, Moved, RemapPointers;
      ghost var was, seenBefore := enrollments, seen;
      var ids := set e | e in enrollments && enrollments[e].course == course
                         && enrollments[e].state.reading.Some? && enrollments[e].state.reading.value in remap;
      ghost var all := ids;
      NoRecords(was, course, remap);
      assert all - all == {};
      while ids != {}
        invariant ids <= all && enrollments.Keys == was.Keys
        invariant forall e <- was :: enrollments[e] == if e in all - ids then Remapped(was[e], remap) else was[e]
        invariant seen == seenBefore + Records(was, all - ids, course, remap)
        decreases ids
      {
        var e :| e in ids;
        RecordOne(was, all - ids, course, remap, e);
        assert all - ids + {e} == all - (ids - {e});
        RemapOne(e, course, remap);
        ids := ids - {e};
      }
      assert all - {} == all;
      RecordsAll(old(State()), course, remap, all);
      RemapRows(old(State()), course, remap);
    }

    method Publish(course: string, version: Version) returns (outcome: Outcome)
      modifies this
      ensures (State(), outcome) == PublishTx(old(State()), course, version)
    {
      hide Publishable, Remap, RemapPointers;
      if !CanPublish(version) {
        return Conflict;
      }
      var versions := if course in courses then courses[course] else [];
      var oldOrder := if versions == [] then [] else versions[|versions| - 1].lessons;
      var remap := RemapRemovedLessons(oldOrder, version.lessons);
      courses := courses[course := versions + [version]];
      ghost var between := State();
      RemapPublishedReadingPointers(course, remap);
      RemapRest(between, course, remap);
      return Done;
    }

    predicate CanPublish(version: Version)
      reads this
      ensures CanPublish(version) <==> Publishable(State(), version)
    {
      && version.lessons != [] && NoRepeats(version.lessons) && "" !in version.lessons
      && forall c <- courses, i | 0 <= i < |courses[c]| :: courses[c][i].id != version.id
    }

    // ----- chat -----

    /** `assertCurrentEnrollment`: the conditional update that every chat write starts with. */
    method AssertCurrent(e: string, generation: nat) returns (ok: bool)
      modifies `enrollments
      ensures ok <==> Current(old(State()), e, generation)
      ensures enrollments == old(enrollments)
    {
      ok := e in enrollments && enrollments[e].generation == generation && enrollments[e].active;
      if ok {
        enrollments := enrollments[e := enrollments[e].(active := true)];
      }
    }

    method PrepareMessage(r: Request, versionId: string, lesson: string) returns (outcome: Outcome)
      modifies this
      ensures (State(), outcome) == PrepareTx(old(State()), r, versionId, lesson)
    {
      hide OnlyLesson, HasMessage;
      if r.enrollment !in enrollments {
        return NotFound;
      }
      var current := AssertCurrent(r.enrollment, r.generation);
      if !current || HasMessage(messages, r, User) {
        return Conflict;
      }
      var course := enrollments[r.enrollment].course;
      if course !in courses || courses[course] == [] || courses[course][|courses[course]| - 1].id != versionId {
        return Conflict;
      }
      if !OnlyLesson(courses[course][|courses[course]| - 1], lesson) {
        return NotFound;
      }
      messages := messages + [Message(r, User, None)];
      pending, accepted := pending[r := None], accepted + {r};
      return Done;
    }

    /** `createCurrentConversation`, with the two ways it can fail. */
    method CreateCurrentConversation(r: Request, usage: Option<Usage>) returns (outcome: Outcome)
      modifies `enrollments, `messages
      ensures enrollments == old(enrollments)
      ensures outcome == if !Current(old(State()), r.enrollment, r.generation) then Conflict
                         else if HasMessage(old(messages), r, Assistant) then Lost else Done
      ensures messages == if outcome == Done then old(messages) + [Message(r, Assistant, usage)] else old(messages)
    {
      hide HasMessage;
      var current := AssertCurrent(r.enrollment, r.generation);
      if !current {
        return Conflict;
      }
      if HasMessage(messages, r, Assistant) {
        return Lost;
      }
      messages := messages + [Message(r, Assistant, usage)];
      return Done;
    }

    /** The first transaction of `saveAgentReply`: write the row, or find that the
        generation is over. */
    method WriteReply(r: Request, usage: Option<Usage>) returns (outcome: Outcome)
      requires r in pending && pending[r].None? && r.enrollment in enrollments
      modifies this
      ensures (State(), outcome) == ReplyTx(old(State()), r, usage)
      ensures outcome == Conflict && usage.Some? ==> r in pending && pending[r] == usage
    {
      hide HasMessage;
      ghost var user := enrollments[r.enrollment].user;
      outcome := CreateCurrentConversation(r, usage);
      if outcome == Conflict && usage.Some? {
        pending := pending[r := usage];
        return;
      }
      if usage.Some? && outcome == Done {
        metered := metered + [Metered(r, user, usage.value)];
      }
      pending := pending - {r};
    }

    /** The second one: the `upsert` of the ledger row, with an empty update. */
    method ChargeLateReply(r: Request, user: string, usage: Usage)
      requires r in pending && pending[r] == Some(usage)
      requires r.enrollment in enrollments && enrollments[r.enrollment].user == user
      modifies this
      ensures State() == ChargeTx(old(State()), r, weights)
    {
      hide HasCharge;
      var consumed := Ceil(Weight(usage, weights));
      OneReply(usage, weights);
      if consumed <= 0 || !HasCharge(charges, Stale(r)) {
        WriteCharge(Charge(Stale(r), user, consumed, [usage]));
      }
      metered := metered + [Metered(r, user, usage)];
      pending := pending - {r};
    }

    /** An await: other transactions run, and leave the tables as in `t`. */
    method Others(t: Db, ghost env: seq<Action>)
      requires t == Run(State(), env, weights)
      modifies this
      ensures State() == Run(old(State()), env, weights)
    {
      hide Run;
      courses, enrollments, snapshots, activities := t.courses, t.enrollments, t.snapshots, t.activities;
      messages, charges, pending, accepted := t.messages, t.charges, t.pending, t.accepted;
      metered, waived, seen := t.metered, t.waived, t.seen;
    }

    /** `saveAgentReply`; `env` runs between its two transactions and leads to `between`. */
    method SaveAgentReply(r: Request, usage: Option<Usage>, between: Db, ghost env: seq<Action>) returns (outcome: Outcome)
      requires ChatOk(State()) && r in pending && pending[r].None? && Foreign(env, r)
      requires between == Run(ReplyTx(State(), r, usage).0, env, weights)
      modifies this
      ensures outcome == ReplyTx(old(State()), r, usage).1
      ensures State() == if outcome == Conflict && usage.Some? then ChargeTx(between, r, weights)
                         else ReplyTx(old(State()), r, usage).0
    {
      hide ReplyTx, ChargeTx, ChatOk, Run;
      PendingIsEnrolled(State(), r);
      var user := enrollments[r.enrollment].user;
      ReplyKeepsChat(State(), r, usage);
      RepliesKeepOwners(State(), r, usage);
      outcome := WriteReply(r, usage);
      if outcome == Conflict && usage.Some? {
        RefusedStays(State(), env, weights, r);
        Others(between, env);
        ChargeLateReply(r, user, usage.value);
      }
    }

    method RespondWithFallback(r: Request) returns (outcome: Outcome)
      modifies this
      ensures State() == FallbackTx(old(State()), r).0
    {
      hide HasMessage;
      if r !in pending || pending[r].Some? {
        return NotFound;
      }
      outcome := CreateCurrentConversation(r, None);
      pending := pending - {r};
    }
  }

  function Add(a: Usage, b: Usage): Usage {
    Usage(a.hit + b.hit, a.miss + b.miss, a.output + b.output)
  }

  // ----- a reply waiting for its charge -----

  /** Transactions of other handlers. */
  predicate Foreign(env: seq<Action>, r: Request) {
    forall a <- env :: (a.DoCharge? || a.DoDie?) ==> a.request != r
  }

  lemma PendingIsEnrolled(db: Db, r: Request)
    requires ChatOk(db) && r in db.pending
    ensures r.enrollment in db.enrollments
  {
    assert Waiting(db, r) && AcceptedOk(db, r);
  }

  lemma RepliesKeepOwners(db: Db, r: Request, usage: Option<Usage>)
    ensures ReplyTx(db, r, usage).0.enrollments == db.enrollments
  {
    hide HasMessage, Current;
  }

  /** Nobody else touches the request, and its enrollment keeps its owner. */
  lemma RefusedStaysOnce(db: Db, a: Action, w: Weights, r: Request)
    requires ChatOk(db) && Refused(db, r) && Foreign([a], r)
    ensures var db' := Step(db, a, w);
            Refused(db', r) && db'.pending[r] == db.pending[r] && SameOwner(db, db', r.enrollment)
  {
    hide ChatOk;
    assert a in [a];
    PendingIsEnrolled(db, r);
    if a.DoRestart? {
      hide RestartTx, SettledCharges, WithoutEnrollment;
      if RestartTx(db, a.e, a.command, w).0 != db {
        RestartShape(db, a.e, a.command, w);
      }
    } else if ChatAction(a) {
      ChatKeepsLearning(db, a, w);
      OnlyItsHandler(db, a, w, r);
    } else {
      hide Step;
      LearningKeepsChat(db, a, w);
    }
  }

  predicate SameOwner(db: Db, db': Db, e: string) {
    e in db.enrollments && e in db'.enrollments && db'.enrollments[e].user == db.enrollments[e].user
  }

  lemma OnlyItsHandler(db: Db, a: Action, w: Weights, r: Request)
    requires ChatOk(db) && Refused(db, r) && ChatAction(a)
    requires a.DoCharge? || a.DoDie? ==> a.request != r
    ensures var db' := Step(db, a, w); r in db'.pending && db'.pending[r] == db.pending[r]
  {
    hide ChatOk, PrepareTx, ReplyTx, ChargeTx, FallbackTx;
    match a
    case DoPrepare(x, versionId, lesson) =>
      if x == r {
        RefusedIsAccepted(db, r);
        PrepareRefuses(db, r, versionId, lesson);
      } else {
        PrepareKeepsOthers(db, x, versionId, lesson, r);
      }
    case DoReply(x, usage) => ReplyKeepsOthers(db, x, usage, r);
    case DoCharge(x) => ChargeKeepsOthers(db, x, w, r);
    case DoFallback(x) => FallbackKeepsOthers(db, x, r);
    case DoDie(_) =>
  }

  lemma RefusedIsAccepted(db: Db, r: Request)
    requires ChatOk(db) && r in db.pending
    ensures AcceptedOk(db, r)
  {
    assert Waiting(db, r);
  }

  lemma PrepareKeepsOthers(db: Db, x: Request, versionId: string, lesson: string, r: Request)
    requires r in db.pending && x != r
    ensures var db' := PrepareTx(db, x, versionId, lesson).0; r in db'.pending && db'.pending[r] == db.pending[r]
  {
    hide HasMessage, OnlyLesson, Latest, Current;
  }

  lemma ReplyKeepsOthers(db: Db, x: Request, usage: Option<Usage>, r: Request)
    requires Refused(db, r)
    ensures var db' := ReplyTx(db, x, usage).0; r in db'.pending && db'.pending[r] == db.pending[r]
  {
    hide HasMessage, Current;
  }

  lemma ChargeKeepsOthers(db: Db, x: Request, w: Weights, r: Request)
    requires ChatOk(db) && Refused(db, r) && x != r
    ensures var db' := ChargeTx(db, x, w); r in db'.pending && db'.pending[r] == db.pending[r]
  {
    hide ChatOk, ChargeTx;
    if Refused(db, x) {
      ChargeTxShape(db, x, w);
    } else {
      NotRefused(db, x, w);
    }
  }

  lemma FallbackKeepsOthers(db: Db, x: Request, r: Request)
    requires Refused(db, r)
    ensures var db' := FallbackTx(db, x).0; r in db'.pending && db'.pending[r] == db.pending[r]
  {
    hide HasMessage, Current;
  }

  lemma PrepareRefuses(db: Db, r: Request, versionId: string, lesson: string)
    requires AcceptedOk(db, r)
    ensures PrepareTx(db, r, versionId, lesson).0 == db
  {
    hide HasMessage, OnlyLesson, Latest;
  }

  lemma {:induction false} RefusedStays(db: Db, env: seq<Action>, w: Weights, r: Request)
    requires ChatOk(db) && Refused(db, r) && Foreign(env, r)
    ensures var db' := Run(db, env, w);
            Refused(db', r) && db'.pending[r] == db.pending[r] && SameOwner(db, db', r.enrollment)
    decreases |env|
  {
    hide ChatOk, Step;
    PendingIsEnrolled(db, r);
    if env != [] {
      assert env[0] in env && forall a <- env[1..] :: a in env;
      RefusedStaysOnce(db, env[0], w, r);
      StepKeepsChat(db, env[0], w);
      RefusedStays(Step(db, env[0], w), env[1..], w, r);
    }
  }

  lemma SumOfNone(ms: seq<Message>, e: string)
    requires ms == []
    ensures Sum(UsagesOf(ms, e)) == Usage(0, 0, 0)
  {
  }

  lemma SumFirst(ms: seq<Message>, e: string)
    requires ms != []
    ensures Sum(UsagesOf(ms, e))
         == if ms[0].request.enrollment == e && ms[0].usage.Some? then Add(ms[0].usage.value, Sum(UsagesOf(ms[1..], e)))
            else Sum(UsagesOf(ms[1..], e))
  {
    var rest := UsagesOf(ms[1..], e);
    if ms[0].request.enrollment == e && ms[0].usage.Some? {
      assert ([ms[0].usage.value] + rest)[1..] == rest;
    } else {
      assert [] + rest == rest;
    }
  }

  lemma SettlementAmount(us: seq<Usage>, sum: Usage, w: Weights)
    requires sum == Sum(us)
    ensures Ceil(Weight(sum, w)) == Consumed(us, w)
  {
  }

  lemma OneReply(u: Usage, w: Weights)
    ensures Ceil(Weight(u, w)) == Consumed([u], w)
  {
    assert [u][1..] == [] && Sum([]) == Usage(0, 0, 0);
    assert Sum([u]) == u;
  }

  lemma OwnedIff(db: Db, user: string, course: string, owned: set<string>)
    requires owned == set e | e in db.enrollments && db.enrollments[e].user == user && db.enrollments[e].course == course
    ensures owned != {} <==> exists e <- db.enrollments :: db.enrollments[e].user == user && db.enrollments[e].course == course
  {
    if e :| e in db.enrollments && db.enrollments[e].user == user && db.enrollments[e].course == course {
      assert e in owned;
    }
  }

  lemma DeactivateFacts(enrollments: map<string, Enrollment>, user: string)
    ensures var others := Deactivate(enrollments, user);
            others.Keys == enrollments.Keys
            && forall e <- others :: others[e].user == enrollments[e].user && others[e].course == enrollments[e].course
  {
  }

  lemma EnrollRefuses(db: Db, user: string, course: string, newId: string)
    ensures !Published(db, course) ==> EnrollTx(db, user, course, newId) == (db, NotFound)
    ensures Published(db, course) && newId in db.enrollments
            && !(exists e <- db.enrollments :: db.enrollments[e].user == user && db.enrollments[e].course == course)
            ==> EnrollTx(db, user, course, newId) == (db, Conflict)
  {
    hide Deactivate, Latest;
  }

  /** The tables after an enrollment that is accepted. */
  lemma EnrollIs(db: Db, user: string, course: string, newId: string, owned: set<string>)
    requires Published(db, course) && (owned == {} ==> newId !in db.enrollments)
    requires owned == set e | e in db.enrollments && db.enrollments[e].user == user && db.enrollments[e].course == course
    ensures var others := Deactivate(db.enrollments, user); var version := Latest(db, course).id;
            EnrollTx(db, user, course, newId) ==
            (if owned == {} then
               db.(enrollments := others[newId := Enrollment(user, course, version, 0, 0, true, L.EMPTY)],
                   snapshots := db.snapshots[newId := map[]], seen := db.seen[(newId, 0, 0) := L.EMPTY])
             else
               db.(enrollments := map e | e in others ::
                 if e in owned then others[e].(active := true, version := version) else others[e]), Done)
  {
    hide Deactivate, Latest;
    DeactivateFacts(db.enrollments, user);
    OwnedIff(db, user, course, owned);
    var others, version := Deactivate(db.enrollments, user), Latest(db, course).id;
    assert (map e | e in others :: if e in owned then others[e].(active := true, version := version) else others[e])
        == (map e | e in others :: if others[e].user == user && others[e].course == course
                                   then others[e].(active := true, version := version) else others[e]);
  }

  /** The tables after a restart that is accepted. */
  lemma RestartIs(db: Db, e: string, c: Command, w: Weights)
    requires e in db.enrollments && e in db.snapshots && Published(db, db.enrollments[e].course)
    requires RestartKey(c.request) !in db.snapshots[e] && UpToDate(db, e, c)
    ensures var en := db.enrollments[e]; var version := Latest(db, en.course).id;
            var s := Snapshot(en.generation, en.revision, version, en.state);
            var usages := UsagesOf(db.messages, e);
            var paid := AddCharge(db, Charge(Settlement(e, en.generation), en.user, Consumed(usages, w), usages));
            RestartTx(db, e, c, w) ==
            (db.(snapshots := db.snapshots[e := db.snapshots[e][RestartKey(c.request) := s]],
                 enrollments := Deactivate(db.enrollments, en.user)[e :=
                   Enrollment(en.user, en.course, version, en.generation + 1, 0, false, L.EMPTY)],
                 seen := db.seen[(e, en.generation + 1, 0) := L.EMPTY],
                 charges := paid.charges, waived := paid.waived, messages := WithoutEnrollment(db.messages, e)), Done)
  {
    hide Deactivate, Consumed, UsagesOf, WithoutEnrollment;
  }

  lemma RestartRefuses(db: Db, e: string, c: Command, w: Weights)
    ensures e !in db.enrollments || e !in db.snapshots || !Published(db, db.enrollments[e].course)
            ==> RestartTx(db, e, c, w) == (db, NotFound)
    ensures e in db.enrollments && e in db.snapshots && Published(db, db.enrollments[e].course) ==>
            if RestartKey(c.request) in db.snapshots[e] then
              RestartTx(db, e, c, w)
              == (db, if SameCommand(db.snapshots[e][RestartKey(c.request)], c) then Replay else Conflict)
            else !UpToDate(db, e, c) ==> RestartTx(db, e, c, w) == (db, Conflict)
  {
    hide Settle, NextGeneration;
  }

  lemma CompletionKept(s: L.State, lesson: string, completed: bool, now: L.Time, version: Version)
    ensures var next := L.SetLessonCompletion(s, lesson, completed, now);
            next.completedAt == s.completedAt && (AllCompleted(version, next) <==> AllCompleted(version, L.WithCourseCompletion(next, now)))
  {
  }

  lemma NoRecords(enrollments: map<string, Enrollment>, course: string, remap: map<string, string>)
    ensures Records(enrollments, {}, course, remap) == map[]
  {
  }

  lemma RemapRows(db: Db, course: string, remap: map<string, string>)
    ensures var rows := RemapPointers(db, course, remap).enrollments;
            rows.Keys == db.enrollments.Keys
            && forall e <- rows :: rows[e] == if db.enrollments[e].course == course then Remapped(db.enrollments[e], remap)
                                              else db.enrollments[e]
  {
    hide Records, Remapped;
  }

  lemma RecordOne(enrollments: map<string, Enrollment>, done: set<string>, course: string, remap: map<string, string>, e: string)
    requires e in enrollments
    ensures var en := enrollments[e]; var before := Records(enrollments, done, course, remap);
            Records(enrollments, done + {e}, course, remap)
            == if Moved(en, course, remap) then before[(e, en.generation, en.revision + 1) := Remapped(en, remap).state] else before
  {
    hide Remapped, Moved;
  }

  /** Rows whose pointer is not at a removed lesson do not move. */
  lemma RecordsAll(db: Db, course: string, remap: map<string, string>, ids: set<string>)
    requires ids == set e | e in db.enrollments && db.enrollments[e].course == course
                            && db.enrollments[e].state.reading.Some? && db.enrollments[e].state.reading.value in remap
    ensures RemapPointers(db, course, remap).seen == db.seen + Records(db.enrollments, ids, course, remap)
    ensures forall e <- db.enrollments :: e !in ids && db.enrollments[e].course == course ==>
              Remapped(db.enrollments[e], remap) == db.enrollments[e]
  {
    hide Records, RemapPointers;
    forall e | e in db.enrollments && e !in ids && db.enrollments[e].course == course
      ensures Remapped(db.enrollments[e], remap) == db.enrollments[e] && !Moved(db.enrollments[e], course, remap)
    {
    }
    RecordsOfMoved(db.enrollments, ids, course, remap);
    RemapSeen(db, course, remap);
  }

  lemma RecordsOfMoved(enrollments: map<string, Enrollment>, ids: set<string>, course: string, remap: map<string, string>)
    requires ids <= enrollments.Keys && forall e <- enrollments :: e !in ids ==> !Moved(enrollments[e], course, remap)
    ensures Records(enrollments, ids, course, remap) == Records(enrollments, enrollments.Keys, course, remap)
  {
    hide Moved, Remapped;
    assert MovedPairs(enrollments, ids, course, remap) == MovedPairs(enrollments, enrollments.Keys, course, remap);
  }

  lemma RemapSeen(db: Db, course: string, remap: map<string, string>)
    ensures RemapPointers(db, course, remap).seen
         == db.seen + Records(db.enrollments, db.enrollments.Keys, course, remap)
  {
  }

  lemma RemapRest(db: Db, course: string, remap: map<string, string>)
    ensures var db' := RemapPointers(db, course, remap);
            db' == db.(enrollments := db'.enrollments, seen := db'.seen)
  {
  }
}
