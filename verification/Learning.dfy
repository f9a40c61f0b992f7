/** Enrollments, their snapshots, chat rows and the quota ledger, as a state machine with
    one step per transaction.  A chat request spans up to three of them: it is accepted in one,
    the reply of the agent arrives in another, at any later time or never, and a reply that
    came too late is charged in a third. */
module Learning {
  import opened Options
  import opened DraftOrder
  import L = LearningState
  import opened ProgressRemap
  import opened TokenWeights

  datatype Version = Version(id: string, lessons: seq<string>)

  datatype Enrollment = Enrollment(
    user: string,
    course: string,
    version: string,
    generation: nat,
    revision: nat,
    active: bool,
    state: L.State)

  /** Idempotency keys: `restart:<request>`, `completed:<generation>`, `manual:<request>`. */
  datatype Key = RestartKey(request: string) | CompletedKey(generation: nat) | ManualKey(request: string)

  /** `sourceGeneration`, `sourceRevision`, `courseVersionId` and the stored state. */
  datatype Snapshot = Snapshot(generation: nat, revision: nat, version: string, state: L.State)

  /** A chat request, by its unique columns. */
  datatype Request = Request(enrollment: string, generation: nat, id: string)

  datatype Role = User | Assistant

  datatype Message = Message(request: Request, role: Role, usage: Option<Usage>)

  /** A LESSON activity; the generation and lesson it was written for are model-only. */
  datatype Activity = Activity(enrollment: string, generation: nat, lesson: string)

  datatype LedgerId = Settlement(enrollment: string, generation: nat) | Stale(request: Request)

  /** A negative ledger row; `replies` are the replies it pays for, model-only. */
  datatype Charge = Charge(id: LedgerId, user: string, amount: int, replies: seq<Usage>)

  datatype Metered = Metered(request: Request, user: string, usage: Usage)

  datatype Db = Db(
    courses: map<string, seq<Version>>,
    enrollments: map<string, Enrollment>,
    snapshots: map<string, map<Key, Snapshot>>,
    activities: seq<Activity>,
    messages: seq<Message>,
    charges: seq<Charge>,
    // handlers that have accepted a request: they wait for the agent, or their reply was
    // refused as stale and still has to be charged
    pending: map<Request, Option<Usage>>,
    // history: accepted requests, replies that carried usage and were saved or charged as
    // stale, charges not written because nothing was due, and the state each
    // (generation, revision) stood for
    accepted: set<Request>,
    metered: seq<Metered>,
    waived: seq<Charge>,
    seen: map<(string, nat, nat), L.State>)

  const INITIAL := Db(map[], map[], map[], [], [], [], map[], {}, [], [], map[])

  datatype Outcome = Done | Replay | NotFound | Conflict | Lost

  // ----- lookups -----

  /** The courses that have a published version. */
  predicate Published(db: Db, course: string) {
    course in db.courses && db.courses[course] != []
  }

  function Latest(db: Db, course: string): Version
    requires Published(db, course)
  {
    db.courses[course][|db.courses[course]| - 1]
  }

  predicate Current(db: Db, e: string, generation: nat) {
    e in db.enrollments && db.enrollments[e].generation == generation && db.enrollments[e].active
  }

  /** `matches.length === 1` */
  predicate OnlyLesson(version: Version, lesson: string) {
    exists i | 0 <= i < |version.lessons| ::
      version.lessons[i] == lesson && forall j | 0 <= j < |version.lessons| :: version.lessons[j] == lesson ==> j == i
  }

  predicate HasMessage(messages: seq<Message>, request: Request, role: Role) {
    exists i | 0 <= i < |messages| :: messages[i].request == request && messages[i].role == role
  }

  predicate HasCharge(charges: seq<Charge>, id: LedgerId) {
    exists i | 0 <= i < |charges| :: charges[i].id == id
  }

  /** Usage columns of the rows of one enrollment, in order. */
  function UsagesOf(messages: seq<Message>, e: string): seq<Usage> {
    if messages == [] then []
    else (if messages[0].request.enrollment == e && messages[0].usage.Some? then [messages[0].usage.value] else [])
         + UsagesOf(messages[1..], e)
  }

  function WithoutEnrollment(messages: seq<Message>, e: string): seq<Message> {
    if messages == [] then []
    else (if messages[0].request.enrollment == e then [] else [messages[0]]) + WithoutEnrollment(messages[1..], e)
  }

  // ----- row updates -----

  /** `updateMany({ where: { userId, active: true }, data: { active: false } })` */
  function Deactivate(enrollments: map<string, Enrollment>, user: string): map<string, Enrollment> {
    map e | e in enrollments ::
      if enrollments[e].user == user then enrollments[e].(active := false) else enrollments[e]
  }

  /** A new learning state under the next revision. */
  function Advance(db: Db, e: string, state: L.State): Db
    requires e in db.enrollments
  {
    var en := db.enrollments[e];
    db.(enrollments := db.enrollments[e := en.(state := state, revision := en.revision + 1)],
        seen := db.seen[(e, en.generation, en.revision + 1) := state])
  }

  function AddSnapshot(db: Db, e: string, key: Key, snapshot: Snapshot): Db
    requires e in db.snapshots
  {
    db.(snapshots := db.snapshots[e := db.snapshots[e][key := snapshot]])
  }

  /** `if (consumed > 0)` the ledger row is written. */
  function AddCharge(db: Db, c: Charge): Db {
    if c.amount > 0 then db.(charges := db.charges + [c]) else db.(waived := db.waived + [c])
  }

  // ----- enroll -----

  function EnrollTx(db: Db, user: string, course: string, newId: string): (Db, Outcome) {
    if !Published(db, course) then (db, NotFound)
    else
      var version := Latest(db, course).id;
      var others := Deactivate(db.enrollments, user);
      if exists e <- db.enrollments :: db.enrollments[e].user == user && db.enrollments[e].course == course then
        (db.(enrollments := map e | e in others ::
               if others[e].user == user && others[e].course == course
               then others[e].(active := true, version := version) else others[e]), Done)
      else if newId in db.enrollments then (db, Conflict)
      else
        (db.(enrollments := others[newId := Enrollment(user, course, version, 0, 0, true, L.EMPTY)],
             snapshots := db.snapshots[newId := map[]],
             seen := db.seen[(newId, 0, 0) := L.EMPTY]), Done)
  }

  // ----- restart -----

  datatype Command = Command(request: string, generation: nat, revision: nat, version: string)

  predicate SameCommand(s: Snapshot, c: Command) {
    s.generation == c.generation && s.revision == c.revision && s.version == c.version
  }

  predicate UpToDate(db: Db, e: string, c: Command)
    requires e in db.enrollments && Published(db, db.enrollments[e].course)
  {
    var en := db.enrollments[e];
    en.generation == c.generation && en.revision == c.revision && Latest(db, en.course).id == c.version
  }

  /** The rows of one enrollment are charged and removed. */
  function Settle(db: Db, e: string, w: Weights): Db
    requires e in db.enrollments
  {
    var en := db.enrollments[e];
    var usages := UsagesOf(db.messages, e);
    var consumed := Consumed(usages, w);
    AddCharge(db, Charge(Settlement(e, en.generation), en.user, consumed, usages))
      .(messages := WithoutEnrollment(db.messages, e))
  }

  function NextGeneration(db: Db, e: string): Db
    requires e in db.enrollments && Published(db, db.enrollments[e].course)
  {
    var en := db.enrollments[e];
    var restarted := Enrollment(en.user, en.course, Latest(db, en.course).id, en.generation + 1, 0, false, L.EMPTY);
    db.(enrollments := Deactivate(db.enrollments, en.user)[e := restarted],
        seen := db.seen[(e, en.generation + 1, 0) := L.EMPTY])
  }

  function RestartTx(db: Db, e: string, c: Command, w: Weights): (Db, Outcome) {
    if e !in db.enrollments || e !in db.snapshots || !Published(db, db.enrollments[e].course) then (db, NotFound)
    else
      var en := db.enrollments[e];
      var key := RestartKey(c.request);
      if key in db.snapshots[e] then
        (db, if SameCommand(db.snapshots[e][key], c) then Replay else Conflict)
      else if !UpToDate(db, e, c) then (db, Conflict)
      else
        var db1 := AddSnapshot(db, e, key, Snapshot(en.generation, en.revision, c.version, en.state));
        (NextGeneration(Settle(db1, e, w), e), Done)
  }

  // ----- progress -----

  datatype Completion = Completion(generation: nat, revision: nat, version: string, completed: bool)

  predicate AllCompleted(version: Version, s: L.State) {
    forall i | 0 <= i < |version.lessons| :: L.Completed(s, version.lessons[i])
  }

  /** The state a completion command asks for. */
  function CompletedState(s: L.State, version: Version, lesson: string, completed: bool, now: L.Time): L.State {
    var next := L.SetLessonCompletion(s, lesson, completed, now);
    if AllCompleted(version, next) && next.completedAt.None? then L.WithCourseCompletion(next, now) else next
  }

  function CompleteTx(db: Db, e: string, lesson: string, c: Completion, now: L.Time): (Db, Outcome) {
    if e !in db.enrollments || e !in db.snapshots || !Published(db, db.enrollments[e].course) then (db, NotFound)
    else if !Current(db, e, c.generation) then (db, Conflict)
    else
      var en := db.enrollments[e];
      var version := Latest(db, en.course);
      var key := CompletedKey(en.generation);
      if version.id != c.version then (db, Conflict)
      else if !OnlyLesson(version, lesson) then (db, NotFound)
      else if L.Completed(en.state, lesson) == c.completed then (db, Done)
      else if en.revision != c.revision then (db, Conflict)
      else
        var next := CompletedState(en.state, version, lesson, c.completed, now);
        var finished := AllCompleted(version, next) && en.state.completedAt.None?;
        var db1 := Advance(db, e, next);
        var db2 := if c.completed && !L.EverCompleted(en.state, lesson)
                   then db1.(activities := db1.activities + [Activity(e, en.generation, lesson)]) else db1;
        if !finished then (db2, Done)
        else if key in db.snapshots[e] then (db, Conflict)  // unique constraint
        else (AddSnapshot(db2, e, key, Snapshot(en.generation, en.revision + 1, version.id, next)), Done)
  }

  function ReadTx(db: Db, e: string, generation: nat, versionId: string, lesson: string): (Db, Outcome) {
    if e !in db.enrollments || !Published(db, db.enrollments[e].course) then (db, NotFound)
    else if !Current(db, e, generation) then (db, Conflict)
    else
      var en := db.enrollments[e];
      var version := Latest(db, en.course);
      if version.id != versionId then (db, Conflict)
      else if !OnlyLesson(version, lesson) then (db, NotFound)
      else if en.state.reading == Some(lesson) then (db, Done)
      else (Advance(db, e, L.SetReadingPosition(en.state, lesson)), Done)
  }

  function SnapshotTx(db: Db, e: string, c: Command): (Db, Outcome) {
    if e !in db.enrollments || e !in db.snapshots || !Published(db, db.enrollments[e].course) then (db, NotFound)
    else
      var en := db.enrollments[e];
      var key := ManualKey(c.request);
      if key in db.snapshots[e] then
        (db, if SameCommand(db.snapshots[e][key], c) then Replay else Conflict)
      else if !UpToDate(db, e, c) then (db, Conflict)
      else (AddSnapshot(db, e, key, Snapshot(en.generation, en.revision, c.version, en.state)), Done)
  }

  // ----- publish -----

  /** What the publish checks demand of a draft: lessons, each with its own non-empty id. */
  predicate Publishable(db: Db, version: Version) {
    && version.lessons != [] && NoRepeats(version.lessons) && "" !in version.lessons
    && forall c <- db.courses, i | 0 <= i < |db.courses[c]| :: db.courses[c][i].id != version.id
  }

  function OldOrder(db: Db, course: string): seq<string> {
    if Published(db, course) then Latest(db, course).lessons else []
  }

  function Remapped(en: Enrollment, remap: map<string, string>): Enrollment {
    var next := L.RemapReadingPosition(en.state, remap);
    if next == en.state then en else en.(state := next, revision := en.revision + 1)
  }

  predicate Moved(en: Enrollment, course: string, remap: map<string, string>) {
    en.course == course && L.RemapReadingPosition(en.state, remap) != en.state
  }

  /** The pairs that a remap creates among `ids`. */
  function MovedPairs(enrollments: map<string, Enrollment>, ids: set<string>, course: string, remap: map<string, string>):
      (pairs: set<(string, nat, nat)>)
    ensures forall k: (string, nat, nat) :: k in pairs <==>
              k.0 in ids && k.0 in enrollments && Moved(enrollments[k.0], course, remap)
              && k.1 == enrollments[k.0].generation && k.2 == enrollments[k.0].revision + 1
  {
    set e | e in ids && e in enrollments && Moved(enrollments[e], course, remap) ::
      (e, enrollments[e].generation, enrollments[e].revision + 1)
  }

  function Records(enrollments: map<string, Enrollment>, ids: set<string>, course: string, remap: map<string, string>):
      map<(string, nat, nat), L.State>
  {
    map k | k in MovedPairs(enrollments, ids, course, remap) :: Remapped(enrollments[k.0], remap).state
  }

  /** Pointers at removed lessons move, under the next revision. */
  function RemapPointers(db: Db, course: string, remap: map<string, string>): Db {
    db.(enrollments := map e | e in db.enrollments ::
          if db.enrollments[e].course == course then Remapped(db.enrollments[e], remap) else db.enrollments[e],
        seen := db.seen + Records(db.enrollments, db.enrollments.Keys, course, remap))
  }

  function PublishTx(db: Db, course: string, version: Version): (Db, Outcome) {
    if !Publishable(db, version) then (db, Conflict)
    else
      var remap := Remap(OldOrder(db, course), version.lessons);
      var versions := if course in db.courses then db.courses[course] else [];
      (RemapPointers(db.(courses := db.courses[course := versions + [version]]), course, remap), Done)
  }

  // ----- chat -----

  /** `prepareMessage`: accept a request once, under the current generation. */
  function PrepareTx(db: Db, r: Request, versionId: string, lesson: string): (Db, Outcome) {
    if r.enrollment !in db.enrollments then (db, NotFound)
    else if !Current(db, r.enrollment, r.generation) then (db, Conflict)
    else if HasMessage(db.messages, r, User) then (db, Conflict)
    else
      var course := db.enrollments[r.enrollment].course;
      if !Published(db, course) || Latest(db, course).id != versionId then (db, Conflict)
      else if !OnlyLesson(Latest(db, course), lesson) then (db, NotFound)
      else
        (db.(messages := db.messages + [Message(r, User, None)],
             pending := db.pending[r := None], accepted := db.accepted + {r}), Done)
  }

  function Finish(db: Db, r: Request): Db {
    db.(pending := db.pending - {r})
  }

  /** `createCurrentConversation`: the row is written only while its generation is current. */
  predicate Writable(db: Db, r: Request) {
    Current(db, r.enrollment, r.generation) && !HasMessage(db.messages, r, Assistant)
  }

  function Meter(db: Db, r: Request, usage: Usage): Db
    requires r.enrollment in db.enrollments
  {
    db.(metered := db.metered + [Metered(r, db.enrollments[r.enrollment].user, usage)])
  }

  /** The ledger row of a reply that came too late, written once. */
  function ChargeStale(db: Db, r: Request, usage: Usage, w: Weights): Db
    requires r.enrollment in db.enrollments
  {
    var charge := Charge(Stale(r), db.enrollments[r.enrollment].user, Consumed([usage], w), [usage]);
    if charge.amount > 0 && HasCharge(db.charges, Stale(r)) then db else AddCharge(db, charge)
  }

  predicate Awaits(db: Db, r: Request) {
    r in db.pending && db.pending[r].None?
  }

  /** `saveAgentReply`, for a reply of the agent to an accepted request.  A reply that comes
      too late is refused here and charged in a second transaction. */
  function ReplyTx(db: Db, r: Request, usage: Option<Usage>): (Db, Outcome) {
    if !Awaits(db, r) || r.enrollment !in db.enrollments then (db, NotFound)
    else if !Current(db, r.enrollment, r.generation) then
      match usage
      case None => (Finish(db, r), Conflict)
      case Some(u) => (db.(pending := db.pending[r := Some(u)]), Conflict)
    else if HasMessage(db.messages, r, Assistant) then (Finish(db, r), Lost)  // unique constraint
    else
      var db1 := db.(messages := db.messages + [Message(r, Assistant, usage)]);
      match usage
      case None => (Finish(db1, r), Done)
      case Some(u) => (Finish(Meter(db1, r, u), r), Done)
  }

  /** The second transaction of a refused reply. */
  function ChargeTx(db: Db, r: Request, w: Weights): Db {
    if r !in db.pending || db.pending[r].None? || r.enrollment !in db.enrollments then db
    else
      var u := db.pending[r].value;
      Finish(Meter(ChargeStale(db, r, u, w), r, u), r)
  }

  /** `respondWithFallback`: the VM is not running, or the agent failed. */
  function FallbackTx(db: Db, r: Request): (Db, Outcome) {
    if !Awaits(db, r) then (db, NotFound)
    else if !Writable(db, r) then (Finish(db, r), Conflict)
    else (Finish(db.(messages := db.messages + [Message(r, Assistant, None)]), r), Done)
  }

  // ----- steps -----

  datatype Action =
    | DoPublish(course: string, version: Version)
    | DoEnroll(user: string, course: string, newId: string)
    | DoRestart(e: string, command: Command)
    | DoComplete(e: string, lesson: string, completion: Completion, now: L.Time)
    | DoRead(e: string, generation: nat, versionId: string, lesson: string)
    | DoSnapshot(e: string, command: Command)
    | DoPrepare(request: Request, versionId: string, lesson: string)
    | DoReply(request: Request, usage: Option<Usage>)
    | DoCharge(request: Request)
    | DoFallback(request: Request)
    | DoDie(request: Request)

  function Step(db: Db, a: Action, w: Weights): Db {
    match a
    case DoPublish(course, version) => PublishTx(db, course, version).0
    case DoEnroll(user, course, newId) => EnrollTx(db, user, course, newId).0
    case DoRestart(e, c) => RestartTx(db, e, c, w).0
    case DoComplete(e, lesson, c, now) => CompleteTx(db, e, lesson, c, now).0
    case DoRead(e, g, v, lesson) => ReadTx(db, e, g, v, lesson).0
    case DoSnapshot(e, c) => SnapshotTx(db, e, c).0
    case DoPrepare(r, v, lesson) => PrepareTx(db, r, v, lesson).0
    case DoReply(r, usage) => ReplyTx(db, r, usage).0
    case DoCharge(r) => ChargeTx(db, r, w)
    case DoFallback(r) => FallbackTx(db, r).0
    // the handler dies: its reply, if one comes, is seen by nobody, and a refused one is not charged
    case DoDie(r) => Finish(db, r)
  }

  function Run(db: Db, run: seq<Action>, w: Weights): Db
    decreases |run|
  {
    if run == [] then db else Run(Step(db, run[0], w), run[1..], w)
  }
}
