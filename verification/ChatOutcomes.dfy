/** What the transactions of one chat turn write, from any reachable state. */
module ChatOutcomes {
  import opened Options
  import opened DraftOrder
  import L = LearningState
  import opened TokenWeights
  import opened Learning
  import opened ChatRows
  import opened LearningOutcomes

  lemma ReachedChat(db: Db, w: Weights)
    requires Reached(db, w)
    ensures ChatOk(db)
  {
    hide Run;
    var run :| Run(INITIAL, run, w) == db;
    RunKeepsChat(INITIAL, run, w);
  }

  /** A question is decided by the fence, the request, the version and the lesson; it is stored
      in the step that accepts it, and its reply is awaited from then on. */
  lemma QuestionIsStored(db: Db, w: Weights, r: Request, versionId: string, lesson: string)
    requires Reached(db, w)
    ensures r.enrollment !in db.enrollments ==> PrepareTx(db, r, versionId, lesson) == (db, NotFound)
    ensures r.enrollment in db.enrollments ==>
              && HasVersion(db, r.enrollment)
              && var (db', outcome) := PrepareTx(db, r, versionId, lesson);
                 var en := db.enrollments[r.enrollment]; var v := VersionOf(db, r.enrollment);
                 && outcome == (if !en.active || en.generation != r.generation then Conflict
                                else if (exists m | m in db.messages :: m.request == r && m.role == User) || v.id != versionId then Conflict
                                else if lesson !in v.lessons then NotFound else Done)
                 && (outcome != Done ==> db' == db)
                 && (outcome == Done ==>
                       && db'.messages == db.messages + [Message(r, User, None)]
                       && db'.pending == db.pending[r := None] && db'.accepted == db.accepted + {r}
                       && db' == db.(messages := db'.messages, pending := db'.pending, accepted := db'.accepted))
  {
    if r.enrollment in db.enrollments {
      hide Reached, NoRepeats, HasMessage;
      RowFacts(db, w, r.enrollment);
      OnlyLessonIff(VersionOf(db, r.enrollment), lesson);
      HasMessageIff(db.messages, r, User);
      QuestionWrites(db, r, versionId, lesson);
    }
  }

  lemma QuestionWrites(db: Db, r: Request, versionId: string, lesson: string)
    requires HasVersion(db, r.enrollment)
    ensures var (db', outcome) := PrepareTx(db, r, versionId, lesson);
            var en := db.enrollments[r.enrollment]; var v := VersionOf(db, r.enrollment);
            && outcome == (if !en.active || en.generation != r.generation then Conflict
                           else if HasMessage(db.messages, r, User) || v.id != versionId then Conflict
                           else if !OnlyLesson(v, lesson) then NotFound else Done)
            && db' == if outcome != Done then db
                      else db.(messages := db.messages + [Message(r, User, None)],
                               pending := db.pending[r := None], accepted := db.accepted + {r})
  {
    hide OnlyLesson, HasMessage;
  }

  lemma HasMessageIff(ms: seq<Message>, r: Request, role: Role)
    ensures HasMessage(ms, r, role) <==> exists m | m in ms :: m.request == r && m.role == role
  {
    if m :| m in ms && m.request == r && m.role == role {
      var i :| 0 <= i < |ms| && ms[i] == m;
      assert ms[i].request == r && ms[i].role == role;
    }
  }

  /** The reply to an awaited question is stored with its usage while the generation lasts;
      afterwards nothing is stored, and usage is kept to be charged. */
  lemma ReplyIsStored(db: Db, w: Weights, r: Request, usage: Option<Usage>)
    requires Reached(db, w) && r in db.pending && db.pending[r].None?
    ensures r.enrollment in db.enrollments
    ensures var (db', outcome) := ReplyTx(db, r, usage); var en := db.enrollments[r.enrollment];
            if en.active && en.generation == r.generation then
              && outcome == Done
              && db' == db.(messages := db.messages + [Message(r, Assistant, usage)], pending := db.pending - {r},
                            metered := db.metered + if usage.None? then [] else [Metered(r, en.user, usage.value)])
            else
              && outcome == Conflict
              && db' == db.(pending := if usage.None? then db.pending - {r} else db.pending[r := usage])
  {
    hide Reached, HasMessage, HasCharge, RowsIsolated;
    ReachedChat(db, w);
    assert Waiting(db, r) && AcceptedOk(db, r);
    assert usage.None? ==> db.metered + [] == db.metered;
  }

  /** The fallback text is stored, without usage, in the same circumstances. */
  lemma FallbackIsStored(db: Db, w: Weights, r: Request)
    requires Reached(db, w) && r in db.pending && db.pending[r].None?
    ensures r.enrollment in db.enrollments
    ensures var (db', outcome) := FallbackTx(db, r); var en := db.enrollments[r.enrollment];
            if en.active && en.generation == r.generation then
              outcome == Done && db' == db.(messages := db.messages + [Message(r, Assistant, None)], pending := db.pending - {r})
            else
              outcome == Conflict && db' == db.(pending := db.pending - {r})
  {
    hide Reached, HasMessage, HasCharge, RowsIsolated;
    ReachedChat(db, w);
    assert Waiting(db, r) && AcceptedOk(db, r);
  }

  /** A refused reply is charged to its learner, once, if anything is due. */
  lemma LateReplyIsCharged(db: Db, w: Weights, r: Request)
    requires Reached(db, w) && r in db.pending && db.pending[r].Some?
    ensures r.enrollment in db.enrollments && !HasCharge(db.charges, Stale(r))
    ensures var db' := ChargeTx(db, r, w); var u := db.pending[r].value; var user := db.enrollments[r.enrollment].user;
            var row := Charge(Stale(r), user, Consumed([u], w), [u]);
            && db'.charges == (if row.amount > 0 then db.charges + [row] else db.charges)
            && db'.metered == db.metered + [Metered(r, user, u)] && db'.pending == db.pending - {r}
            && db'.messages == db.messages && db'.enrollments == db.enrollments
  {
    hide Reached, HasMessage, HasCharge, RowsIsolated, Consumed;
    ReachedChat(db, w);
    assert Waiting(db, r) && AcceptedOk(db, r);
  }
}
