/** Chat rows belong to the current generation, each request is accepted once, and its
    reply is written at most once, however replies interleave with restarts. */
module ChatRows {
  import opened Options
  import L = LearningState
  import opened ProgressRemap
  import opened TokenWeights
  import opened Learning
  import opened LearningHistory

  // ----- the chat tables and the rest -----

  predicate SameChat(db: Db, db': Db) {
    && db'.messages == db.messages && db'.charges == db.charges && db'.pending == db.pending
    && db'.accepted == db.accepted && db'.metered == db.metered && db'.waived == db.waived
  }

  predicate SameOwners(db: Db, db': Db) {
    forall e <- db.enrollments :: e in db'.enrollments
      && db'.enrollments[e].user == db.enrollments[e].user
      && db'.enrollments[e].generation == db.enrollments[e].generation
  }

  /** Reading, completing, enrolling and publishing leave the chat alone. */
  lemma LearningKeepsChat(db: Db, a: Action, w: Weights)
    requires !ChatAction(a) && !a.DoRestart?
    ensures SameChat(db, Step(db, a, w)) && SameOwners(db, Step(db, a, w))
  {
    hide CompleteTx, ReadTx, SnapshotTx, EnrollTx, PublishTx;
    match a
    case DoPublish(course, version) => PublishKeepsChat(db, course, version);
    case DoEnroll(user, course, newId) => EnrollWrites(db, user, course, newId);
    case DoComplete(e, lesson, c, now) => CompleteKeepsChat(db, e, lesson, c, now);
    case DoRead(e, g, v, lesson) => ReadKeepsChat(db, e, g, v, lesson);
    case DoSnapshot(e, c) => SnapshotWrites(db, e, c);
  }

  lemma PublishKeepsChat(db: Db, course: string, version: Version)
    ensures var db' := PublishTx(db, course, version).0; SameChat(db, db') && SameOwners(db, db')
  {
    hide Publishable, Remap, OldOrder, L.RemapReadingPosition;
  }

  lemma CompleteKeepsChat(db: Db, e: string, lesson: string, c: Completion, now: L.Time)
    ensures var db' := CompleteTx(db, e, lesson, c, now).0; SameChat(db, db') && SameOwners(db, db')
  {
    hide CompleteTx, CompletedState, AllCompleted, Latest, L.EverCompleted, L.Completed;
    CompleteWrites(db, e, lesson, c, now);
  }

  lemma ReadKeepsChat(db: Db, e: string, generation: nat, versionId: string, lesson: string)
    ensures var db' := ReadTx(db, e, generation, versionId, lesson).0; SameChat(db, db') && SameOwners(db, db')
  {
    hide ReadTx, OnlyLesson, Latest;
    ReadWrites(db, e, generation, versionId, lesson);
  }

  // ----- isolation -----

  predicate BelongsNow(db: Db, r: Request) {
    r.enrollment in db.enrollments && r.generation == db.enrollments[r.enrollment].generation
  }

  predicate AcceptedOk(db: Db, r: Request) {
    && r.enrollment in db.enrollments && r.generation <= db.enrollments[r.enrollment].generation
    && (BelongsNow(db, r) ==> HasMessage(db.messages, r, User))
  }

  /** Still waiting: nothing has been written for the reply yet. */
  predicate Waiting(db: Db, r: Request) {
    r in db.accepted && !HasMessage(db.messages, r, Assistant) && !HasCharge(db.charges, Stale(r))
  }

  /** The unique constraint on (enrollment, generation, request, role). */
  predicate DistinctRows(ms: seq<Message>) {
    forall i, j | 0 <= i < j < |ms| :: ms[i].request == ms[j].request ==> ms[i].role != ms[j].role
  }

  predicate RowsIsolated(db: Db) {
    && (forall i | 0 <= i < |db.messages| :: BelongsNow(db, db.messages[i].request))
    && DistinctRows(db.messages)
    && (forall i | 0 <= i < |db.messages| :: HasMessage(db.messages, db.messages[i].request, User))
  }

  predicate RequestsOnce(db: Db) {
    && (forall r <- db.accepted :: AcceptedOk(db, r))
    && (forall r <- db.pending :: Waiting(db, r))
    && (forall i | 0 <= i < |db.charges| :: db.charges[i].id.Stale? ==> db.charges[i].id.request in db.accepted)
    && (forall i | 0 <= i < |db.metered| :: db.metered[i].request in db.accepted - db.pending.Keys)
    && (forall i, j | 0 <= i < j < |db.metered| :: db.metered[i].request != db.metered[j].request)
  }

  predicate ChatOk(db: Db) {
    RowsIsolated(db) && RequestsOnce(db)
  }

  /** Steps outside the chat. */
  lemma SameChatKeeps(db: Db, db': Db)
    requires ChatOk(db) && SameChat(db, db') && SameOwners(db, db')
    ensures ChatOk(db')
  {
    forall r | r in db'.accepted ensures AcceptedOk(db', r) {
      assert AcceptedOk(db, r);
    }
    forall r | r in db'.pending ensures Waiting(db', r) {
      assert Waiting(db, r);
    }
    forall i | 0 <= i < |db'.messages| ensures BelongsNow(db', db'.messages[i].request) {
      assert BelongsNow(db, db.messages[i].request);
    }
  }

  // ----- one more row -----

  lemma HasAppended(ms: seq<Message>, m: Message, r: Request, role: Role)
    ensures HasMessage(ms + [m], r, role) <==> HasMessage(ms, r, role) || (m.request == r && m.role == role)
  {
    if HasMessage(ms, r, role) {
      var i :| 0 <= i < |ms| && ms[i].request == r && ms[i].role == role;
      assert (ms + [m])[i] == ms[i];
    }
    if m.request == r && m.role == role {
      assert (ms + [m])[|ms|] == m;
    }
  }

  lemma AppendIsolated(db: Db, m: Message)
    requires RowsIsolated(db) && BelongsNow(db, m.request) && !HasMessage(db.messages, m.request, m.role)
    requires m.role == Assistant ==> HasMessage(db.messages, m.request, User)
    ensures RowsIsolated(db.(messages := db.messages + [m]))
  {
    var ms := db.messages + [m];
    forall i | 0 <= i < |ms| ensures HasMessage(ms, ms[i].request, User) {
      HasAppended(db.messages, m, ms[i].request, User);
    }
  }

  lemma PrepareKeepsChat(db: Db, r: Request, versionId: string, lesson: string)
    requires ChatOk(db)
    ensures ChatOk(PrepareTx(db, r, versionId, lesson).0)
  {
    hide OnlyLesson, Latest, HasMessage, HasCharge, RowsIsolated;
    var db' := PrepareTx(db, r, versionId, lesson).0;
    if db' != db {
      var m := Message(r, User, None);
      assert r !in db.accepted by {
        assert r in db.accepted ==> AcceptedOk(db, r);
      }
      AppendIsolated(db, m);
      IsolatedIgnores(db.(messages := db.messages + [m]), db');
      NoAssistantWithoutUser(db, r);
      NoChargeUnlessAccepted(db, r);
      forall x | x in db'.accepted ensures AcceptedOk(db', x) {
        HasAppended(db.messages, m, x, User);
        assert x in db.accepted ==> AcceptedOk(db, x);
      }
      forall x | x in db'.pending ensures Waiting(db', x) {
        HasAppended(db.messages, m, x, Assistant);
        assert x in db.pending ==> Waiting(db, x);
      }
    }
  }

  lemma IsolatedIgnores(db: Db, db': Db)
    requires RowsIsolated(db) && db'.messages == db.messages && db'.enrollments == db.enrollments
    ensures RowsIsolated(db')
  {
    forall i | 0 <= i < |db'.messages| ensures BelongsNow(db', db'.messages[i].request) {
      assert BelongsNow(db, db.messages[i].request);
    }
  }

  lemma NoAssistantWithoutUser(db: Db, r: Request)
    requires RowsIsolated(db) && !HasMessage(db.messages, r, User)
    ensures !HasMessage(db.messages, r, Assistant)
  {
  }

  lemma NoChargeUnlessAccepted(db: Db, r: Request)
    requires RequestsOnce(db) && r !in db.accepted
    ensures !HasCharge(db.charges, Stale(r))
  {
  }

  // ----- the reply -----

  /** A waiting request leaves the queue, with a row, a charge or nothing written. */
  lemma FinishKeepsRequests(db: Db, r: Request, db': Db)
    requires ChatOk(db) && r in db.pending
    requires db'.enrollments == db.enrollments && db'.accepted == db.accepted && db'.pending == db.pending - {r}
    requires db'.messages == db.messages || exists u :: db'.messages == db.messages + [Message(r, Assistant, u)]
    requires db'.charges == db.charges || exists c: Charge :: c.id == Stale(r) && db'.charges == db.charges + [c]
    requires db'.metered == db.metered || exists m: Metered :: m.request == r && db'.metered == db.metered + [m]
    ensures RequestsOnce(db')
  {
    hide RowsIsolated, HasMessage, HasCharge;
    assert Waiting(db, r);
    forall x | x in db'.accepted ensures AcceptedOk(db', x) {
      assert AcceptedOk(db, x);
      AnyAppended(db.messages, db'.messages, r, x, User);
    }
    forall x | x in db'.pending ensures Waiting(db', x) {
      assert Waiting(db, x);
      AnyAppended(db.messages, db'.messages, r, x, Assistant);
      AnyCharged(db.charges, db'.charges, r, x);
    }
  }

  lemma AnyAppended(ms: seq<Message>, ms': seq<Message>, r: Request, x: Request, role: Role)
    requires ms' == ms || exists u :: ms' == ms + [Message(r, Assistant, u)]
    ensures HasMessage(ms, x, role) ==> HasMessage(ms', x, role)
    ensures x != r ==> (HasMessage(ms', x, role) ==> HasMessage(ms, x, role))
  {
    hide HasMessage;
    if ms' != ms {
      var u :| ms' == ms + [Message(r, Assistant, u)];
      HasAppended(ms, Message(r, Assistant, u), x, role);
    }
  }

  lemma AnyCharged(cs: seq<Charge>, cs': seq<Charge>, r: Request, x: Request)
    requires cs' == cs || exists c: Charge :: c.id == Stale(r) && cs' == cs + [c]
    ensures x != r ==> (HasCharge(cs', Stale(x)) ==> HasCharge(cs, Stale(x)))
  {
  }

  /** A reply is refused and waits for its charge. */
  lemma RefuseKeepsChat(db: Db, r: Request, usage: Usage, db': Db)
    requires ChatOk(db) && r in db.pending && db' == db.(pending := db.pending[r := Some(usage)])
    ensures ChatOk(db')
  {
    hide RowsIsolated, HasMessage, HasCharge;
    IsolatedIgnores(db, db');
    forall x | x in db'.accepted ensures AcceptedOk(db', x) {
      assert AcceptedOk(db, x);
    }
    forall x | x in db'.pending ensures Waiting(db', x) {
      assert Waiting(db, x);
    }
  }

  lemma ReplyShape(db: Db, r: Request, usage: Option<Usage>)
    requires Awaits(db, r) && r.enrollment in db.enrollments
    ensures var db' := ReplyTx(db, r, usage).0;
            if usage.Some? && !Current(db, r.enrollment, r.generation) then
              db' == db.(pending := db.pending[r := usage])
            else
              && db'.enrollments == db.enrollments && db'.accepted == db.accepted && db'.pending == db.pending - {r}
              && (db'.messages == db.messages
                  || (Writable(db, r) && db'.messages == db.messages + [Message(r, Assistant, usage)]))
              && db'.charges == db.charges
              && (db'.metered == db.metered || exists m: Metered :: m.request == r && db'.metered == db.metered + [m])
  {
    hide HasMessage, HasCharge, Current;
    if usage.Some? {
      assert Metered(r, db.enrollments[r.enrollment].user, usage.value).request == r;
    }
  }

  lemma ChargeShape(db: Db, r: Request, usage: Usage, w: Weights)
    requires r.enrollment in db.enrollments
    ensures var db' := ChargeStale(db, r, usage, w);
            && db'.enrollments == db.enrollments && db'.accepted == db.accepted && db'.pending == db.pending
            && db'.messages == db.messages && db'.metered == db.metered
            && (db'.charges == db.charges || exists c: Charge :: c.id == Stale(r) && db'.charges == db.charges + [c])
  {
    hide Consumed, HasCharge;
    assert Charge(Stale(r), db.enrollments[r.enrollment].user, Consumed([usage], w), [usage]).id == Stale(r);
  }

  lemma ReplyKeepsChat(db: Db, r: Request, usage: Option<Usage>)
    requires ChatOk(db)
    ensures ChatOk(ReplyTx(db, r, usage).0)
  {
    hide ReplyTx, HasMessage, HasCharge, RequestsOnce, RowsIsolated;
    if Awaits(db, r) && r.enrollment in db.enrollments {
      var db' := ReplyTx(db, r, usage).0;
      ReplyShape(db, r, usage);
      if usage.Some? && !Current(db, r.enrollment, r.generation) {
        RefuseKeepsChat(db, r, usage.value, db');
      } else {
        FinishKeepsRequests(db, r, db');
        WrittenIsolated(db, r, usage, db');
      }
    } else {
      NotPending(db, r, usage);
    }
  }

  predicate Refused(db: Db, r: Request) {
    r in db.pending && db.pending[r].Some?
  }

  lemma ChargeTxShape(db: Db, r: Request, w: Weights)
    requires ChatOk(db) && Refused(db, r)
    ensures r.enrollment in db.enrollments
    ensures var db' := ChargeTx(db, r, w); var u := db.pending[r].value;
            && db'.enrollments == db.enrollments && db'.accepted == db.accepted && db'.messages == db.messages
            && db'.pending == db.pending - {r}
            && (db'.charges == db.charges || exists c: Charge :: c.id == Stale(r) && db'.charges == db.charges + [c])
            && db'.metered == db.metered + [Metered(r, db.enrollments[r.enrollment].user, u)]
            && db'.charges == ChargeStale(db, r, u, w).charges && db'.waived == ChargeStale(db, r, u, w).waived
  {
    hide HasMessage, HasCharge, ChargeStale, RowsIsolated;
    assert Waiting(db, r) && AcceptedOk(db, r);
    ChargeShape(db, r, db.pending[r].value, w);
  }

  lemma ChargeKeepsChat(db: Db, r: Request, w: Weights)
    requires ChatOk(db)
    ensures ChatOk(ChargeTx(db, r, w))
  {
    hide HasMessage, HasCharge, RequestsOnce, RowsIsolated, ChargeTx, ChargeStale;
    if Refused(db, r) {
      ChargeTxShape(db, r, w);
      assert Metered(r, db.enrollments[r.enrollment].user, db.pending[r].value).request == r;
      FinishKeepsRequests(db, r, ChargeTx(db, r, w));
      IsolatedIgnores(db, ChargeTx(db, r, w));
    } else {
      NotRefused(db, r, w);
    }
  }

  lemma NotRefused(db: Db, r: Request, w: Weights)
    requires !Refused(db, r)
    ensures ChargeTx(db, r, w) == db
  {
  }

  lemma NotPending(db: Db, r: Request, usage: Option<Usage>)
    requires !Awaits(db, r) || r.enrollment !in db.enrollments
    ensures ReplyTx(db, r, usage) == (db, NotFound)
  {
  }

  lemma WrittenIsolated(db: Db, r: Request, usage: Option<Usage>, db': Db)
    requires ChatOk(db) && r in db.pending && db'.enrollments == db.enrollments
    requires db'.messages == db.messages || (Writable(db, r) && db'.messages == db.messages + [Message(r, Assistant, usage)])
    ensures RowsIsolated(db')
  {
    hide RowsIsolated, HasMessage;
    assert Waiting(db, r) && AcceptedOk(db, r);
    if db'.messages == db.messages {
      IsolatedIgnores(db, db');
    } else {
      var m := Message(r, Assistant, usage);
      AppendIsolated(db, m);
      IsolatedIgnores(db.(messages := db.messages + [m]), db');
    }
  }

  lemma FallbackKeepsChat(db: Db, r: Request)
    requires ChatOk(db)
    ensures ChatOk(FallbackTx(db, r).0)
  {
    hide HasMessage, HasCharge, RequestsOnce, RowsIsolated, Current;
    if Awaits(db, r) {
      var db' := FallbackTx(db, r).0;
      FinishKeepsRequests(db, r, db');
      WrittenIsolated(db, r, None, db');
    }
  }

  // ----- restart -----

  lemma {:induction false} WithoutFacts(ms: seq<Message>, e: string)
    ensures forall i | 0 <= i < |WithoutEnrollment(ms, e)| :: WithoutEnrollment(ms, e)[i].request.enrollment != e
    ensures forall r, role :: HasMessage(WithoutEnrollment(ms, e), r, role) <==> r.enrollment != e && HasMessage(ms, r, role)
    ensures DistinctRows(ms) ==> DistinctRows(WithoutEnrollment(ms, e))
    decreases |ms|
  {
    hide DistinctRows, HasMessage;
    if ms == [] {
      NoMessages();
    } else {
      WithoutFacts(ms[1..], e);
      var rest := WithoutEnrollment(ms[1..], e);
      if ms[0].request.enrollment == e {
        assert [] + rest == rest;
        assert WithoutEnrollment(ms, e) == rest;
      } else {
        assert WithoutEnrollment(ms, e) == [ms[0]] + rest;
      }
      assert ms == [ms[0]] + ms[1..];
      forall r, role
        ensures HasMessage(ms, r, role) <==> (ms[0].request == r && ms[0].role == role) || HasMessage(ms[1..], r, role)
        ensures HasMessage([ms[0]] + rest, r, role) <==> (ms[0].request == r && ms[0].role == role) || HasMessage(rest, r, role)
      {
        HasFirst(ms[0], ms[1..], r, role);
        HasFirst(ms[0], rest, r, role);
      }
      DistinctFirst(ms, rest);
    }
  }

  lemma NoMessages()
    ensures DistinctRows([]) && forall r, role :: !HasMessage([], r, role)
  {
  }

  lemma HasFirst(m: Message, ms: seq<Message>, r: Request, role: Role)
    ensures HasMessage([m] + ms, r, role) <==> (m.request == r && m.role == role) || HasMessage(ms, r, role)
  {
    if HasMessage(ms, r, role) {
      var i :| 0 <= i < |ms| && ms[i].request == r && ms[i].role == role;
      assert ([m] + ms)[i + 1] == ms[i];
    }
    if m.request == r && m.role == role {
      assert ([m] + ms)[0] == m;
    }
  }

  lemma DistinctFirst(ms: seq<Message>, rest: seq<Message>)
    requires ms != [] && forall r, role :: HasMessage(rest, r, role) ==> HasMessage(ms[1..], r, role)
    ensures DistinctRows(ms) ==> DistinctRows(ms[1..])
    ensures DistinctRows(ms) && DistinctRows(rest) ==> DistinctRows([ms[0]] + rest)
  {
    if DistinctRows(ms) {
      forall j | 0 <= j < |rest| && rest[j].request == ms[0].request ensures rest[j].role != ms[0].role {
        assert HasMessage(rest, rest[j].request, rest[j].role);
        var k :| 0 <= k < |ms[1..]| && ms[1..][k].request == rest[j].request && ms[1..][k].role == rest[j].role;
        assert ms[k + 1] == ms[1..][k];
      }
    }
  }

  lemma RestartKeepsChat(db: Db, e: string, c: Command, w: Weights)
    requires ChatOk(db)
    ensures ChatOk(RestartTx(db, e, c, w).0)
  {
    hide RestartTx, WithoutEnrollment, HasMessage, HasCharge, RowsIsolated, SettledCharges;
    var db' := RestartTx(db, e, c, w).0;
    if db' != db {
      RestartShape(db, e, c, w);
      SettledStale(db, db');
      WithoutFacts(db.messages, e);
      RestartIsolated(db, e, db');
      forall r | r in db'.accepted ensures AcceptedOk(db', r) {
        assert AcceptedOk(db, r);
      }
      forall r | r in db'.pending ensures Waiting(db', r) {
        assert Waiting(db, r);
      }
    }
  }

  lemma SettleShape(db: Db, e: string, w: Weights)
    requires e in db.enrollments
    ensures var db' := Settle(db, e, w);
            && db'.enrollments == db.enrollments && db'.courses == db.courses && db'.messages == WithoutEnrollment(db.messages, e)
            && db'.pending == db.pending && db'.accepted == db.accepted && db'.metered == db.metered
            && db'.seen == db.seen && db'.snapshots == db.snapshots
    ensures SettledCharges(db, Settle(db, e, w))
  {
    hide Consumed, UsagesOf, WithoutEnrollment;
  }

  /** A settlement is not the charge of a late reply. */
  predicate SettledCharges(db: Db, db': Db) {
    db'.charges == db.charges
    || (|db'.charges| == |db.charges| + 1 && db'.charges[..|db.charges|] == db.charges
        && db'.charges[|db.charges|].id.Settlement?)
  }

  lemma SettledStale(db: Db, db': Db)
    requires SettledCharges(db, db')
    ensures forall r :: HasCharge(db'.charges, Stale(r)) <==> HasCharge(db.charges, Stale(r))
    ensures forall i | 0 <= i < |db'.charges| :: db'.charges[i].id.Stale? ==> i < |db.charges| && db'.charges[i] == db.charges[i]
  {
    forall r ensures HasCharge(db'.charges, Stale(r)) <==> HasCharge(db.charges, Stale(r)) {
      if HasCharge(db.charges, Stale(r)) {
        var i :| 0 <= i < |db.charges| && db.charges[i].id == Stale(r);
        assert db'.charges[i] == db.charges[i];
      }
      if HasCharge(db'.charges, Stale(r)) {
        var i :| 0 <= i < |db'.charges| && db'.charges[i].id == Stale(r);
        assert i < |db.charges| && db'.charges[i] == db.charges[i];
      }
    }
  }

  lemma NextGenerationShape(db: Db, e: string)
    requires e in db.enrollments && Published(db, db.enrollments[e].course)
    ensures var db' := NextGeneration(db, e);
            && db'.enrollments.Keys == db.enrollments.Keys
            && db'.enrollments[e].generation == db.enrollments[e].generation + 1
            && (forall x <- db.enrollments :: x != e ==> db'.enrollments[x].generation == db.enrollments[x].generation)
            && (forall x <- db.enrollments :: db'.enrollments[x].user == db.enrollments[x].user)
            && SameChat(db, db')
  {
    hide Latest;
  }

  lemma RestartShape(db: Db, e: string, c: Command, w: Weights)
    requires RestartTx(db, e, c, w).0 != db
    ensures var db' := RestartTx(db, e, c, w).0;
            && e in db.enrollments && db'.enrollments.Keys == db.enrollments.Keys
            && db'.enrollments[e].generation == db.enrollments[e].generation + 1
            && (forall x <- db.enrollments :: x != e ==> db'.enrollments[x].generation == db.enrollments[x].generation)
            && (forall x <- db.enrollments :: db'.enrollments[x].user == db.enrollments[x].user)
            && db'.messages == WithoutEnrollment(db.messages, e)
            && db'.pending == db.pending && db'.accepted == db.accepted && db'.metered == db.metered
            && SettledCharges(db, db')
  {
    hide RestartTx, Settle, NextGeneration, WithoutEnrollment, Latest, SettledCharges;
    RestartWrites(db, e, c, w);
    var en := db.enrollments[e];
    var db1 := AddSnapshot(db, e, RestartKey(c.request), Snapshot(en.generation, en.revision, c.version, en.state));
    SettleShape(db1, e, w);
    NextGenerationShape(Settle(db1, e, w), e);
    SameSettled(db, db1, Settle(db1, e, w), RestartTx(db, e, c, w).0);
  }

  lemma SameSettled(db: Db, db1: Db, db2: Db, db': Db)
    requires SettledCharges(db1, db2) && db1.charges == db.charges && db'.charges == db2.charges
    ensures SettledCharges(db, db')
  {
  }

  lemma RestartIsolated(db: Db, e: string, db': Db)
    requires RowsIsolated(db) && e in db.enrollments && db'.enrollments.Keys == db.enrollments.Keys
    requires forall x <- db.enrollments :: x != e ==> db'.enrollments[x].generation == db.enrollments[x].generation
    requires db'.messages == WithoutEnrollment(db.messages, e)
    ensures RowsIsolated(db')
  {
    hide WithoutEnrollment;
    WithoutFacts(db.messages, e);
    forall i | 0 <= i < |db'.messages|
      ensures BelongsNow(db', db'.messages[i].request) && HasMessage(db'.messages, db'.messages[i].request, User)
    {
      var m := db'.messages[i];
      assert HasMessage(db'.messages, m.request, m.role);
      assert HasMessage(db.messages, m.request, m.role);
      var k :| 0 <= k < |db.messages| && db.messages[k].request == m.request && db.messages[k].role == m.role;
      assert BelongsNow(db, db.messages[k].request);
    }
  }

  // ----- every step, every run -----

  lemma DieKeepsChat(db: Db, r: Request)
    requires ChatOk(db)
    ensures ChatOk(Finish(db, r))
  {
    hide RowsIsolated, HasMessage, HasCharge;
    var db' := Finish(db, r);
    IsolatedIgnores(db, db');
    forall x | x in db'.accepted ensures AcceptedOk(db', x) {
      assert AcceptedOk(db, x);
    }
    forall x | x in db'.pending ensures Waiting(db', x) {
      assert Waiting(db, x);
    }
  }

  lemma StepKeepsChat(db: Db, a: Action, w: Weights)
    requires ChatOk(db)
    ensures ChatOk(Step(db, a, w))
  {
    hide ChatOk;
    if a.DoRestart? {
      hide RestartTx;
      RestartKeepsChat(db, a.e, a.command, w);
    } else if ChatAction(a) {
      hide PrepareTx, ReplyTx, ChargeTx, FallbackTx, Finish;
      match a
      case DoPrepare(r, v, lesson) => PrepareKeepsChat(db, r, v, lesson);
      case DoReply(r, usage) => ReplyKeepsChat(db, r, usage);
      case DoCharge(r) => ChargeKeepsChat(db, r, w);
      case DoFallback(r) => FallbackKeepsChat(db, r);
      case DoDie(r) => DieKeepsChat(db, r);
    } else {
      hide Step;
      LearningKeepsChat(db, a, w);
      SameChatKeeps(db, Step(db, a, w));
    }
  }

  lemma {:induction false} RunKeepsChat(db: Db, run: seq<Action>, w: Weights)
    requires ChatOk(db)
    ensures ChatOk(Run(db, run, w))
    decreases |run|
  {
    hide Step, ChatOk;
    if run != [] {
      StepKeepsChat(db, run[0], w);
      RunKeepsChat(Step(db, run[0], w), run[1..], w);
    }
  }

  /** In every reachable state each chat row carries the current generation of its
      enrollment, a request has at most one USER and one ASSISTANT row, and no ASSISTANT
      row stands without its USER row. */
  lemma ChatRowsAreIsolated(run: seq<Action>, w: Weights)
    ensures RowsIsolated(Run(INITIAL, run, w))
  {
    hide Run;
    RunKeepsChat(INITIAL, run, w);
  }

  /** An accepted request is never accepted again, not even in a later generation. */
  lemma AcceptedOnce(run: seq<Action>, w: Weights, r: Request, versionId: string, lesson: string)
    ensures var db := Run(INITIAL, run, w); r in db.accepted ==> PrepareTx(db, r, versionId, lesson) == (db, Conflict)
  {
    hide Run, HasMessage;
    RunKeepsChat(INITIAL, run, w);
    var db := Run(INITIAL, run, w);
    assert r in db.accepted ==> AcceptedOk(db, r);
  }

  /** The reply of an accepted request never meets another row of its own: it is saved if
      its generation is still current and refused as stale otherwise. */
  lemma RepliesAreNeverLost(run: seq<Action>, w: Weights, r: Request, usage: Option<Usage>)
    ensures var db := Run(INITIAL, run, w);
            Awaits(db, r) ==>
              ReplyTx(db, r, usage).1 == if Current(db, r.enrollment, r.generation) then Done else Conflict
  {
    hide Run, HasMessage, HasCharge, ChargeStale;
    RunKeepsChat(INITIAL, run, w);
    var db := Run(INITIAL, run, w);
    if Awaits(db, r) {
      assert Waiting(db, r) && AcceptedOk(db, r);
    }
  }
}
